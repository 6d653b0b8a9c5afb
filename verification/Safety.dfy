/** What the protocol guarantees in every reachable state, whatever calls are in progress. */
module Safety {
  import opened Memory
  import opened Protocol
  import opened Ledger
  import opened Invariant
  import opened MemorySteps
  import opened DutySteps
  import opened Runs

  // ---- A guard is seen from every ancestor ------------------------------------------------------------

  lemma InvFacts(sys: Sys)
    requires Inv(sys)
    ensures Words(sys.nodes) && Latches(sys.nodes) && Registries(sys.nodes) && Stacks(sys.nodes, sys.threads)
    ensures Balanced(sys.nodes, sys.guards, ThreadTokens(sys.threads)) && Duties(sys.nodes, ThreadTokens(sys.threads))
    ensures Waiters(sys.nodes, ThreadTokens(sys.threads), sys.waiters) && Lives(sys.nodes, sys.guards)
  {
  }

  /** A nonempty node has arrived at its parent, whose count it raises. */
  lemma CountedAtParent(sys: Sys, n: nat)
    requires Inv(sys) && IsChild(sys.nodes, n) && sys.nodes[n].word.count > 0
    ensures sys.nodes[n].link.parent < |sys.nodes| && sys.nodes[sys.nodes[n].link.parent].word.count > 0
  {
    hide ThreadTokens, WordTokens, Latches, Registries, Stacks, Duties, Waiters, Lives, Departures;
    var p, home := sys.nodes[n].link.parent, sys.nodes[n].word.home;
    assert WordOk(sys.nodes, n, sys.nodes[n].word);
    ArrivedChildOwns(sys.nodes, n);
    CountersNatural(sys, KidUnit(p, home));
    assert Counter(sys.nodes, KidUnit(p, home)) == Owners(sys.nodes, sys.guards, ThreadTokens(sys.threads), KidUnit(p, home));
    assert ShardOk(sys.nodes[p].shards[home].word);
    ArrivedShardOwns(sys.nodes, p, home);
    assert Counter(sys.nodes, NodeUnit(p)) == Owners(sys.nodes, sys.guards, ThreadTokens(sys.threads), NodeUnit(p));
  }

  lemma {:induction false} CountedAtAncestors(sys: Sys, a: nat, n: nat)
    requires Inv(sys) && Within(sys.nodes, a, n) && sys.nodes[n].word.count > 0
    ensures a < |sys.nodes| && sys.nodes[a].word.count > 0
    decreases n
  {
    hide Inv;
    if a != n {
      CountedAtParent(sys, n);
      CountedAtAncestors(sys, a, sys.nodes[n].link.parent);
    }
  }

  lemma CountedAtHome(sys: Sys, h: Home)
    requires Inv(sys) && h in sys.guards
    ensures ValidShard(sys.nodes, h.node, h.shard) && sys.nodes[h.node].word.count > 0
  {
    hide ThreadTokens, WordTokens, Latches, Registries, Stacks, Duties, Waiters, Lives, Departures;
    GuardedShard(sys, h);
    ArrivedShardOwns(sys.nodes, h.node, h.shard);
    assert Counter(sys.nodes, NodeUnit(h.node)) == Owners(sys.nodes, sys.guards, ThreadTokens(sys.threads), NodeUnit(h.node));
  }

  /** In every reachable state, a guard is counted at every node from its home to its root. */
  lemma GuardCountedAtEveryAncestor(sys: Sys, h: Home, a: nat)
    requires Reachable(sys) && h in sys.guards && Within(sys.nodes, a, h.node)
    ensures a < |sys.nodes| && sys.nodes[a].word.count > 0
  {
    ReachableInv(sys);
    hide Inv, Reachable;
    CountedAtHome(sys, h);
    CountedAtAncestors(sys, a, h.node);
  }

  /** A handle reports that shutdown is complete. */
  predicate Complete(nodes: seq<Node>, n: nat)
    requires ValidNode(nodes, n)
  {
    nodes[n].word.stopped && nodes[n].word.count == 0
  }

  /** No guard is homed in the subtree of `n`. */
  ghost predicate SubtreeIdle(sys: Sys, n: nat) {
    forall h :: h in sys.guards ==> !Within(sys.nodes, n, h.node)
  }

  /** Completion is never reported early. */
  lemma CompleteOnlyWhenIdle(sys: Sys, n: nat)
    requires Reachable(sys) && ValidNode(sys.nodes, n) && Complete(sys.nodes, n)
    ensures SubtreeIdle(sys, n)
  {
    hide Reachable;
    forall h | h in sys.guards ensures !Within(sys.nodes, n, h.node) {
      if Within(sys.nodes, n, h.node) { GuardCountedAtEveryAncestor(sys, h, n); }
    }
  }

  // ---- Quiescent states -------------------------------------------------------------------------------

  lemma QuiescentLife(sys: Sys, n: nat)
    requires Inv(sys) && Quiescent(sys) && ValidNode(sys.nodes, n)
    ensures !sys.nodes[n].life.Dropping? && !NeedsKey(sys.nodes, n)
  {
    hide ThreadTokens, Words, Latches, Registries, Stacks, Waiters, Lives, Balanced, FlushesOwed, ReleasesOwed;
    hide LatchesOwed, StopsOwed, Departures;
    QuiescentHoldsNothing(sys);
    assert ThreadTokens(sys.threads)[Collecting(n)] == One(NeedsCollect(sys.nodes, n));
    assert ThreadTokens(sys.threads)[MustRegister(n)] == One(NeedsKey(sys.nodes, n));
  }

  lemma LiveParent(sys: Sys, n: nat)
    requires Inv(sys) && IsChild(sys.nodes, n) && sys.nodes[n].life.Live?
    ensures sys.nodes[n].link.parent < n && sys.nodes[sys.nodes[n].link.parent].life.Live?
  {
    hide ThreadTokens, Latches, Registries, Stacks, Waiters, Balanced, Duties, Departures;
  }

  lemma QuiescentChildStopped(sys: Sys, c: nat)
    requires Inv(sys) && Quiescent(sys) && IsChild(sys.nodes, c) && sys.nodes[c].life.Live?
    requires sys.nodes[c].link.parent < |sys.nodes| && sys.nodes[sys.nodes[c].link.parent].word.stopped
    ensures sys.nodes[c].word.stopped
  {
    hide ThreadTokens, Words, Latches, Registries, Stacks, Waiters, Balanced, Lives, FlushesOwed, ReleasesOwed;
    hide LatchesOwed, RegistersOwed, CollectsOwed, Departures;
    QuiescentHoldsNothing(sys);
    assert !NeedsStop(sys.nodes, c);
  }

  /** At quiescence, a stop has reached every live descendant, whenever that was created. */
  lemma {:induction false} StopReachesDescendants(sys: Sys, a: nat, n: nat)
    requires Inv(sys) && Quiescent(sys) && Within(sys.nodes, a, n)
    requires sys.nodes[n].life.Live? && a < |sys.nodes| && sys.nodes[a].word.stopped
    ensures sys.nodes[n].word.stopped
    decreases n
  {
    hide Inv, Quiescent;
    if a != n {
      LiveParent(sys, n);
      StopReachesDescendants(sys, a, sys.nodes[n].link.parent);
      QuiescentChildStopped(sys, n);
    }
  }

  lemma QuiescentStopReaches(sys: Sys, a: nat, n: nat)
    requires Reachable(sys) && Quiescent(sys) && Within(sys.nodes, a, n)
    requires sys.nodes[n].life.Live? && a < |sys.nodes| && sys.nodes[a].word.stopped
    ensures sys.nodes[n].word.stopped
  {
    hide Reachable, Inv;
    ReachableInv(sys);
    StopReachesDescendants(sys, a, n);
  }

  /** At quiescence, an arrived shard of a live, stopped node counts a guard or an arrived child. */
  lemma QuiescentShard(sys: Sys, n: nat) returns (s: nat)
    requires Inv(sys) && Quiescent(sys) && ValidNode(sys.nodes, n) && sys.nodes[n].life.Live?
    requires sys.nodes[n].word.stopped && sys.nodes[n].word.count > 0
    ensures ValidShard(sys.nodes, n, s) && (sys.nodes[n].shards[s].word.local != 0 || sys.nodes[n].shards[s].word.kids != 0)
  {
    hide ThreadTokens, WordTokens, Words, Latches, Registries, Stacks, Waiters, Lives, StopsOwed, ReleasesOwed;
    hide RegistersOwed, CollectsOwed, Departures;
    QuiescentHoldsNothing(sys);
    assert Counter(sys.nodes, NodeUnit(n)) == Owners(sys.nodes, sys.guards, ThreadTokens(sys.threads), NodeUnit(n));
    s := NodeUnitOwner(sys.nodes, n);
    assert !NeedsLatch(sys.nodes, n, s);
    assert !NeedsFlush(sys.nodes, n, s);
  }

  /** At quiescence, a counted child is alive and nonempty. */
  lemma QuiescentKid(sys: Sys, n: nat, s: nat) returns (c: nat)
    requires Inv(sys) && Quiescent(sys) && ValidShard(sys.nodes, n, s) && sys.nodes[n].shards[s].word.kids != 0
    ensures IsChild(sys.nodes, c) && sys.nodes[c].link.parent == n && sys.nodes[c].life.Live? && sys.nodes[c].word.count > 0
  {
    hide ThreadTokens, WordTokens, Words, Latches, Registries, Stacks, Waiters, FlushesOwed, LatchesOwed, StopsOwed;
    hide RegistersOwed, Departures;
    QuiescentHoldsNothing(sys);
    assert Counter(sys.nodes, KidUnit(n, s)) == Owners(sys.nodes, sys.guards, ThreadTokens(sys.threads), KidUnit(n, s));
    c := KidUnitOwner(sys.nodes, n, s);
    assert !NeedsRelease(sys.nodes, c);
    assert sys.nodes[c].life.Freed? ==> Empty(sys.nodes[c]);
    QuiescentLife(sys, c);
    CountersNatural(sys, NodeUnit(c));
  }

  lemma QuiescentLocal(sys: Sys, n: nat, s: nat) returns (h: Home)
    requires Inv(sys) && Quiescent(sys) && ValidShard(sys.nodes, n, s) && sys.nodes[n].shards[s].word.local != 0
    ensures h == Home(n, s) && h in sys.guards
  {
    hide ThreadTokens, WordTokens, Words, Latches, Registries, Stacks, Waiters, Lives, Duties, Departures;
    h := Home(n, s);
    QuiescentHoldsNothing(sys);
    LocalUnitNotInWords(sys.nodes, n, s);
    assert Counter(sys.nodes, LocalUnit(n, s)) == Owners(sys.nodes, sys.guards, ThreadTokens(sys.threads), LocalUnit(n, s));
  }

  lemma {:induction false} WithinTransitive(nodes: seq<Node>, a: nat, b: nat, n: nat)
    requires Within(nodes, a, b) && Within(nodes, b, n)
    ensures Within(nodes, a, n)
    decreases n
  {
    if b != n { WithinTransitive(nodes, a, b, nodes[n].link.parent); }
  }

  /** At quiescence, a nonempty stopped node has a guard in its subtree. */
  lemma {:induction false} QuiescentGuard(sys: Sys, n: nat) returns (h: Home)
    requires Inv(sys) && Quiescent(sys) && ValidNode(sys.nodes, n) && sys.nodes[n].life.Live?
    requires sys.nodes[n].word.stopped && sys.nodes[n].word.count > 0
    ensures h in sys.guards && Within(sys.nodes, n, h.node)
    decreases |sys.nodes| - n
  {
    hide Inv, Quiescent, Balanced, Registries, Duties, Waiters, Lives, Stacks, Latches;
    InvFacts(sys);
    var s := QuiescentShard(sys, n);
    if sys.nodes[n].shards[s].word.local != 0 {
      h := QuiescentLocal(sys, n, s);
    } else {
      var c := QuiescentKid(sys, n, s);
      QuiescentChildStopped(sys, c);
      h := QuiescentGuard(sys, c);
      WithinTransitive(sys.nodes, n, c, h.node);
    }
  }

  lemma CountNatural(sys: Sys, n: nat)
    requires Inv(sys) && ValidNode(sys.nodes, n)
    ensures sys.nodes[n].word.count >= 0
  {
    hide ThreadTokens, WordTokens, Words, Latches, Registries, Stacks, Waiters, Lives, Duties, Departures;
    CountersNatural(sys, NodeUnit(n));
  }

  /** At quiescence, a live stopped node reports completion exactly when its subtree holds no guard. */
  lemma CompleteIffIdle(sys: Sys, n: nat)
    requires Reachable(sys) && Quiescent(sys) && ValidNode(sys.nodes, n) && sys.nodes[n].life.Live? && sys.nodes[n].word.stopped
    ensures Complete(sys.nodes, n) <==> SubtreeIdle(sys, n)
  {
    hide Reachable, Inv, Quiescent;
    ReachableInv(sys);
    if Complete(sys.nodes, n) {
      CompleteOnlyWhenIdle(sys, n);
    } else {
      CountNatural(sys, n);
      var h := QuiescentGuard(sys, n);
    }
  }
}
