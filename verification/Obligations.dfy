/** Who is responsible: every counted unit has an owner, and every change that the protocol has put
    off is about to be made by some call in progress. */
module Obligations {
  import opened Memory
  import opened Protocol
  import opened Bags
  import opened Ledger
  import opened Invariant
  import opened StackSteps
  import opened DutySteps
  import opened LifeSteps
  import opened WaiterSteps
  import opened Runs
  import opened Propagation
  import opened Safety

  /** Some call in progress has reached this frame. */
  ghost predicate InProgress(sys: Sys, f: Frame) {
    exists t, k :: 0 <= t < |sys.threads| && 0 <= k < |sys.threads[t]| && sys.threads[t][k] == f
  }

  lemma FrameInProgress(sys: Sys, t: nat, k: nat)
    requires t < |sys.threads| && k < |sys.threads[t]|
    ensures InProgress(sys, sys.threads[t][k])
  {
  }

  // ---- Conservation -------------------------------------------------------------------------------------

  /** Every counter equals the number of owners of its units: the guards, the arrived words and the
      calls in progress. */
  lemma Conservation(sys: Sys, unit: Token)
    requires Reachable(sys) && IsUnit(unit)
    ensures Counter(sys.nodes, unit) == Owners(sys.nodes, sys.guards, ThreadTokens(sys.threads), unit)
  {
    hide Reachable, ThreadTokens, WordTokens, Counter, Owners, Inv, IsUnit;
    ReachableInv(sys);
    BalanceFacts(sys);
  }

  /** The first children, of those that arrived at a shard. */
  ghost function Kids(nodes: seq<Node>, p: nat, s: nat, upTo: nat): set<nat>
    requires upTo <= |nodes|
  {
    set c | 0 <= c < upTo && nodes[c].link.Child? && nodes[c].link.parent == p && nodes[c].word.arrived && nodes[c].word.home == s
  }

  ghost function ArrivedShards(shards: seq<Shard>): set<nat> {
    set s | 0 <= s < |shards| && shards[s].word.arrived
  }

  lemma ArrivedLast(shards: seq<Shard>)
    requires shards != []
    ensures var last := |shards| - 1; |ArrivedShards(shards)| == |ArrivedShards(shards[..last])| + One(shards[last].word.arrived)
  {
    var last := |shards| - 1;
    assert ArrivedShards(shards) == if shards[last].word.arrived then ArrivedShards(shards[..last]) + {last} else ArrivedShards(shards[..last]);
  }

  lemma NoneArrived()
    ensures ArrivedShards([]) == {}
  {
  }

  lemma {:induction false} ShardUnits(n: nat, shards: seq<Shard>, x: Token)
    ensures Sum(ShardOwns(n), shards)[x] == if x == NodeUnit(n) then |ArrivedShards(shards)| else 0
  {
    hide ArrivedShards;
    if shards == [] {
      NoneArrived();
    } else {
      ShardUnits(n, shards[..|shards| - 1], x);
      ArrivedLast(shards);
    }
  }

  ghost predicate IsKid(nodes: seq<Node>, p: nat, s: nat, c: nat) {
    IsChild(nodes, c) && nodes[c].link.parent == p && nodes[c].word.arrived && nodes[c].word.home == s
  }

  lemma OneMoreKid(nodes: seq<Node>, p: nat, s: nat, c: nat)
    requires c < |nodes|
    ensures |Kids(nodes, p, s, c + 1)| == |Kids(nodes, p, s, c)| + One(IsKid(nodes, p, s, c))
  {
    assert Kids(nodes, p, s, c + 1) == if IsKid(nodes, p, s, c) then Kids(nodes, p, s, c) + {c} else Kids(nodes, p, s, c);
  }

  lemma NodeOwnsKid(nodes: seq<Node>, p: nat, s: nat, c: nat)
    requires c < |nodes|
    ensures NodeOwns(c, nodes[c])[KidUnit(p, s)] == One(IsKid(nodes, p, s, c))
  {
    hide Sum;
    ShardUnits(c, nodes[c].shards, KidUnit(p, s));
  }

  lemma {:induction false} KidUnits(nodes: seq<Node>, p: nat, s: nat, upTo: nat)
    requires upTo <= |nodes|
    ensures Sum(NodeOwns, nodes[..upTo])[KidUnit(p, s)] == |Kids(nodes, p, s, upTo)|
  {
    hide NodeOwns, IsKid;
    if upTo == 0 {
      assert Kids(nodes, p, s, 0) == {};
    } else {
      var c := upTo - 1;
      KidUnits(nodes, p, s, c);
      NodeOwnsKid(nodes, p, s, c);
      OneMoreKid(nodes, p, s, c);
      SumPush(NodeOwns, nodes[..c], nodes[c]);
      assert nodes[..upTo] == nodes[..c] + [nodes[c]];
    }
  }

  lemma NodeUnitsOf(c: nat, node: Node, n: nat)
    ensures NodeOwns(c, node)[NodeUnit(n)] == if c == n then |ArrivedShards(node.shards)| else 0
  {
    hide ArrivedShards, Sum;
    ShardUnits(c, node.shards, NodeUnit(n));
  }

  lemma {:induction false} NodeUnits(nodes: seq<Node>, n: nat, upTo: nat)
    requires n < |nodes| && upTo <= |nodes|
    ensures Sum(NodeOwns, nodes[..upTo])[NodeUnit(n)] == if n < upTo then |ArrivedShards(nodes[n].shards)| else 0
  {
    hide ArrivedShards, NodeOwns;
    if upTo > 0 {
      var c := upTo - 1;
      NodeUnits(nodes, n, c);
      NodeUnitsOf(c, nodes[c], n);
      assert nodes[..upTo][..c] == nodes[..c];
    }
  }

  /** In every reachable state: a shard counts the guards homed on it and those on their way out; the
      child nodes whose word says that they arrived there, and the calls that hold such a unit; and a
      node counts its arrived shards, and the calls that hold one of its units. */
  lemma CountersExact(sys: Sys, n: nat, s: nat)
    requires Reachable(sys) && ValidShard(sys.nodes, n, s)
    ensures sys.nodes[n].shards[s].word.local == sys.guards[Home(n, s)] + ThreadTokens(sys.threads)[LocalUnit(n, s)]
    ensures sys.nodes[n].shards[s].word.kids == |Kids(sys.nodes, n, s, |sys.nodes|)| + ThreadTokens(sys.threads)[KidUnit(n, s)]
    ensures sys.nodes[n].word.count == |ArrivedShards(sys.nodes[n].shards)| + ThreadTokens(sys.threads)[NodeUnit(n)]
  {
    hide Reachable, ThreadTokens, Kids, ArrivedShards, Sum;
    Conservation(sys, LocalUnit(n, s));
    Conservation(sys, KidUnit(n, s));
    Conservation(sys, NodeUnit(n));
    LocalUnitNotInWords(sys.nodes, n, s);
    assert sys.nodes[..|sys.nodes|] == sys.nodes;
    KidUnits(sys.nodes, n, s, |sys.nodes|);
    NodeUnits(sys.nodes, n, |sys.nodes|);
  }

  /** The unit that a departing call is about to subtract. */
  function Departs(f: Frame): Option<Token> {
    match f
    case DepartShard(n, s, unit, _) => Some(UnitToken(n, s, unit))
    case DepartNode(n, _) => Some(NodeUnit(n))
    case _ => None
  }

  /** No counter is ever negative, and none is decremented while it is zero. */
  lemma NoUnderflow(sys: Sys, unit: Token)
    requires Reachable(sys) && IsUnit(unit)
    ensures Counter(sys.nodes, unit) >= 0
    ensures forall f :: InProgress(sys, f) && Departs(f) == Some(unit) ==> Counter(sys.nodes, unit) > 0
    ensures unit.LocalUnit? && Home(unit.n, unit.s) in sys.guards ==> Counter(sys.nodes, unit) > 0
  {
    hide Reachable, ThreadTokens, WordTokens, Counter, Inv;
    Conservation(sys, unit);
    forall f | InProgress(sys, f) && Departs(f) == Some(unit) ensures Counter(sys.nodes, unit) > 0 {
      var t, k :| 0 <= t < |sys.threads| && 0 <= k < |sys.threads[t]| && sys.threads[t][k] == f;
      FrameHolds(sys.threads, t, k);
      assert unit in Tokens(f);
    }
  }

  // ---- Flushes and releases -----------------------------------------------------------------------------

  lemma FlushFrame(f: Frame, n: nat, s: nat)
    requires MustFlush(n, s) in Tokens(f)
    ensures f == Flush(n, s) || f == FlushIfAlive(n, s)
  {
    hide Tokens;
    TokensDebt(f, MustFlush(n, s));
  }

  lemma FlushHeld(nodes: seq<Node>, held: multiset<Token>, n: nat, s: nat)
    requires FlushesOwed(nodes, held) && NeedsFlush(nodes, n, s)
    ensures MustFlush(n, s) in held
  {
  }

  /** No arrival leaks from a shard: one that is stopped, arrived and empty is about to be flushed. */
  lemma EmptyShardFlushed(sys: Sys, n: nat, s: nat)
    requires Reachable(sys) && ValidShard(sys.nodes, n, s) && sys.nodes[n].shards[s].word == FLUSHABLE
    requires sys.nodes[n].life.Live? || sys.nodes[n].link.Child?
    ensures InProgress(sys, Flush(n, s)) || InProgress(sys, FlushIfAlive(n, s))
  {
    hide Reachable, ThreadTokens, Tokens, Inv, FlushesOwed, ReleasesOwed, LatchesOwed, StopsOwed, RegistersOwed;
    hide CollectsOwed;
    ReachableInv(sys);
    InvFacts(sys);
    FlushHeld(sys.nodes, ThreadTokens(sys.threads), n, s);
    var t, k := HeldByFrame(sys.threads, MustFlush(n, s));
    FlushFrame(sys.threads[t][k], n, s);
    FrameInProgress(sys, t, k);
  }

  lemma ReleaseHeld(nodes: seq<Node>, held: multiset<Token>, n: nat)
    requires ReleasesOwed(nodes, held) && NeedsRelease(nodes, n)
    ensures MustRelease(n, nodes[n].word) in held
  {
  }

  /** No arrival leaks from a node: a child that is arrived and empty is about to be released, by an
      exchange that expects exactly its present word. */
  lemma EmptyChildReleased(sys: Sys, n: nat)
    requires Reachable(sys) && IsChild(sys.nodes, n) && sys.nodes[n].word.arrived && sys.nodes[n].word.count == 0
    ensures InProgress(sys, NotifyZero(n, sys.nodes[n].word)) || InProgress(sys, Release(n, sys.nodes[n].word))
    ensures sys.nodes[n].word.stopped || !sys.nodes[n].life.Live?
  {
    hide Reachable, ThreadTokens, Tokens, Inv, FlushesOwed, ReleasesOwed, LatchesOwed, StopsOwed, RegistersOwed;
    hide CollectsOwed;
    ReachableInv(sys);
    InvFacts(sys);
    ReleaseOnlyStopped(sys, n);
    ReleaseHeld(sys.nodes, ThreadTokens(sys.threads), n);
    var t, k := HeldByFrame(sys.threads, MustRelease(n, sys.nodes[n].word));
    ReleaseFrame(sys.threads[t][k], n, sys.nodes[n].word);
    FrameInProgress(sys, t, k);
  }

  // ---- Stops --------------------------------------------------------------------------------------------

  /** The frame is to find child `c` of `p`, which is registered on shard `s`, or to stop it. */
  predicate WillStop(f: Frame, p: nat, s: nat, c: nat) {
    match f
    case Stop(n, Begin) => n == c
    case Stop(n, Latch(_, _)) => n == p
    case Stop(n, Notify(_)) => n == p
    case Stop(n, Snapshot(i, work, _)) => (n == p && i <= s) || c in work
    case Stop(n, Descend(work, _)) => c in work
    case NewChild(_, Register(d)) => d == c
    case NewChild(_, Check(d)) => d == c
    case _ => false
  }

  lemma StopHeld(nodes: seq<Node>, held: multiset<Token>, c: nat)
    requires StopsOwed(nodes, held) && NeedsStop(nodes, c)
    ensures MustStop(c) in held || SnapshotOwed(held, nodes[c].link.parent, nodes[c].link.shard)
  {
  }

  lemma DebtStops(f: Frame, p: nat, s: nat, c: nat, x: Token)
    requires Debt(f, x) > 0 && (x == MustStop(c) || (x.MustSnapshot? && x.n == p && x.i <= s))
    ensures WillStop(f, p, s, c)
  {
  }

  /** Child creation never escapes a stop: while a live child of a stopped node has not stopped, some
      call has yet to look for it, or holds it in its work list, or is still creating it. */
  lemma ChildNeverEscapes(sys: Sys, c: nat)
    requires Reachable(sys) && IsChild(sys.nodes, c) && sys.nodes[c].life.Live? && !sys.nodes[c].word.stopped
    requires sys.nodes[c].link.parent < |sys.nodes| && sys.nodes[sys.nodes[c].link.parent].word.stopped
    ensures exists f :: InProgress(sys, f) && WillStop(f, sys.nodes[c].link.parent, sys.nodes[c].link.shard, c)
  {
    hide Reachable, ThreadTokens, Tokens, Inv, FlushesOwed, ReleasesOwed, LatchesOwed, StopsOwed, RegistersOwed;
    hide CollectsOwed;
    ReachableInv(sys);
    InvFacts(sys);
    var p, s, held := sys.nodes[c].link.parent, sys.nodes[c].link.shard, ThreadTokens(sys.threads);
    StopHeld(sys.nodes, held, c);
    var x := if MustStop(c) in held then MustStop(c) else (var i :| 0 <= i <= s && MustSnapshot(p, i) in held; MustSnapshot(p, i));
    var t, k := HeldByFrame(sys.threads, x);
    TokensDebt(sys.threads[t][k], x);
    FrameInProgress(sys, t, k);
    DebtStops(sys.threads[t][k], p, s, c, x);
  }

  // ---- Wakeups ------------------------------------------------------------------------------------------

  /** The frame is to notify the event. */
  predicate WillNotify(f: Frame, n: nat, event: Event) {
    match f
    case NotifyZero(m, _) => m == n && event == ZeroEvent
    case Stop(m, Zero) => m == n && event == ZeroEvent
    case Stop(m, Latch(_, zero)) => m == n && (event == ZeroEvent ==> zero)
    case Stop(m, Notify(zero)) => m == n && (event == ZeroEvent ==> zero)
    case Stop(m, Snapshot(_, _, zero)) => m == n && event == ZeroEvent && zero
    case Stop(m, Descend(_, zero)) => m == n && event == ZeroEvent && zero
    case _ => false
  }

  lemma DebtNotifies(f: Frame, w: Waiter)
    requires Debt(f, Wakes(w)) > 0
    ensures WillNotify(f, w.node, w.event)
  {
  }

  /** No lost wakeup: a waiter that sleeps on a listener after a failed check, although its event has
      happened, is about to be notified by a call in progress. */
  lemma SleeperNotified(sys: Sys, i: nat)
    requires Reachable(sys) && i < |sys.waiters| && Asleep(sys.waiters[i])
    requires sys.waiters[i].node < |sys.nodes| && Happened(sys.nodes, sys.waiters[i])
    ensures exists f :: InProgress(sys, f) && WillNotify(f, sys.waiters[i].node, sys.waiters[i].event)
  {
    hide Reachable, ThreadTokens, Tokens, Inv;
    ReachableInv(sys);
    WaitersFacts(sys, i);
    var w := sys.waiters[i];
    WakesIsDuty(w);
    var t, k := HeldByFrame(sys.threads, Wakes(w));
    TokensDebt(sys.threads[t][k], Wakes(w));
    FrameInProgress(sys, t, k);
    DebtNotifies(sys.threads[t][k], w);
  }

  /** A completion resolves only at an instant when its node is stopped and counts nothing, so that no
      guard exists in its subtree; a stop listener only when its node is stopped. */
  lemma ResolvesTruthfully(sys: Sys, i: nat)
    requires Reachable(sys) && Enabled(sys, RunWaiter(i))
    requires !sys.waiters[i].pc.Ready? && Apply(sys, RunWaiter(i)).waiters[i].pc.Ready?
    ensures var w := sys.waiters[i];
            Happened(sys.nodes, w) && (w.event == ZeroEvent ==> SubtreeIdle(sys, w.node))
  {
    hide Reachable, ThreadTokens, Inv, SubtreeIdle;
    ReachableInv(sys);
    WaitersFacts(sys, i);
    var w := sys.waiters[i];
    if w.event == ZeroEvent { CompleteOnlyWhenIdle(sys, w.node); }
  }

  /** What `k` polling steps make of a waiter while no call is in progress. */
  function Polled(nodes: seq<Node>, w: Waiter, k: nat): (w': Waiter)
    requires ValidNode(nodes, w.node)
    ensures w'.node == w.node
    decreases k
  {
    if k == 0 then w else Polled(nodes, StepWaiter(nodes, w), k - 1)
  }

  lemma ThreePolls(nodes: seq<Node>, w: Waiter)
    requires WaiterShape(nodes, w) && Happened(nodes, w) && !Asleep(w) && !w.pc.Gone?
    ensures Polled(nodes, w, 3).pc.Ready?
  {
    var w1 := StepWaiter(nodes, w);
    var w2 := StepWaiter(nodes, w1);
    var w3 := StepWaiter(nodes, w2);
    if w.pc.PollListener? { assert w.listener == Some(w.listener.value) && w.listener.value; }
    assert w3.pc.Ready?;
    assert Polled(nodes, w, 3) == Polled(nodes, w1, 2) == Polled(nodes, w2, 1) == Polled(nodes, w3, 0);
  }

  /** At quiescence no waiter sleeps through its event: it resolves within three of its own steps. */
  lemma QuiescentWaiterResolves(sys: Sys, i: nat)
    requires Reachable(sys) && Quiescent(sys) && i < |sys.waiters| && !sys.waiters[i].pc.Gone?
    requires sys.waiters[i].node < |sys.nodes| && Happened(sys.nodes, sys.waiters[i])
    ensures !Asleep(sys.waiters[i]) && Polled(sys.nodes, sys.waiters[i], 3).pc.Ready?
  {
    hide Reachable, Inv, ThreadTokens;
    ReachableInv(sys);
    WaitersFacts(sys, i);
    QuiescentHoldsNothing(sys);
    var w := sys.waiters[i];
    assert !Asleep(w);
    ThreePolls(sys.nodes, w);
  }

  lemma HasShard(nodes: seq<Node>, n: nat)
    requires Words(nodes) && n < |nodes|
    ensures ValidShard(nodes, n, 0)
  {
  }

  lemma PrefixReachable(run: seq<Sys>, j: nat)
    requires IsRun(run) && j < |run|
    ensures Reachable(run[j])
  {
    hide Next;
    assert IsRun(run[..j + 1]) && Last(run[..j + 1]) == run[j];
  }

  /** `state` reads the stop bit, and then the count, at two instants of a run: if it finds the node
      stopped and then empty, the node is complete at the second, and its subtree holds no guard. */
  lemma ReportedComplete(run: seq<Sys>, i: nat, j: nat, n: nat)
    requires IsRun(run) && i <= j < |run| && ValidNode(run[i].nodes, n) && run[i].nodes[n].word.stopped
    requires n < |run[j].nodes| && run[j].nodes[n].word.count == 0
    ensures Complete(run[j].nodes, n) && SubtreeIdle(run[j], n)
  {
    hide Reachable, Init, Next, Inv, SubtreeIdle;
    RunInv(run, i);
    InvFacts(run[i]);
    HasShard(run[i].nodes, n);
    StopBitsNeverClear(run, i, j, n, 0);
    PrefixReachable(run, j);
    CompleteOnlyWhenIdle(run[j], n);
  }

  // ---- Collection ---------------------------------------------------------------------------------------

  /** While a child is being collected, no call owns a unit of its shards. */
  lemma ShardUnitUnowned(sys: Sys, n: nat, x: Token)
    requires Stacks(sys.nodes, sys.threads) && IsChild(sys.nodes, n) && sys.nodes[n].life.Dropping? && (x.LocalUnit? || x.KidUnit?) && x.n == n
    ensures x !in ThreadTokens(sys.threads)
  {
    hide ThreadTokens, FrameOk;
    if x in ThreadTokens(sys.threads) {
      var t, k := HeldByFrame(sys.threads, x);
      assert StackOk(sys.nodes, sys.threads[t]);
      OwnerTouches(sys.nodes, sys.threads[t][k], x, n);
      assert Anchored(sys.nodes, sys.threads[t][0], n);
      CollectorsStack(sys.nodes, sys.threads[t]);
      assert k == 1 ==> Calls(sys.threads[t][0], sys.threads[t][1]);
      OwnedBy(sys.threads[t][k], x);
    }
  }

  lemma DyingKids(sys: Sys, n: nat, s: nat)
    requires Lives(sys.nodes, sys.guards) && ValidNode(sys.nodes, n) && !sys.nodes[n].life.Live?
    ensures KidUnit(n, s) !in WordTokens(sys.nodes)
  {
    hide WordTokens;
    if KidUnit(n, s) in WordTokens(sys.nodes) {
      var c := KidUnitOwner(sys.nodes, n, s);
    }
  }

  /** From the start of a child's destructor, its shards count no guards and no children; when it
      ends, they and the node have left nothing counted anywhere. */
  lemma CollectedCountsNothing(sys: Sys, n: nat, s: nat)
    requires Reachable(sys) && IsChild(sys.nodes, n) && !sys.nodes[n].life.Live? && ValidShard(sys.nodes, n, s)
    ensures sys.nodes[n].shards[s].word.local == 0 && sys.nodes[n].shards[s].word.kids == 0
    ensures sys.nodes[n].life.Freed? ==> sys.nodes[n].word.count == 0 && !sys.nodes[n].word.arrived && !sys.nodes[n].shards[s].word.arrived
    ensures sys.nodes[n].life.Freed? ==> !Listed(sys.nodes, n)
  {
    hide Reachable, Inv, ThreadTokens, WordTokens, Latches, Waiters, Duties, Stacks;
    ReachableInv(sys);
    InvFacts(sys);
    if sys.nodes[n].life.Dropping? {
      Conservation(sys, LocalUnit(n, s));
      Conservation(sys, KidUnit(n, s));
      ShardUnitUnowned(sys, n, LocalUnit(n, s));
      ShardUnitUnowned(sys, n, KidUnit(n, s));
      LocalUnitNotInWords(sys.nodes, n, s);
      if KidUnit(n, s) in WordTokens(sys.nodes) { DyingKids(sys, n, s); }
    }
  }

  /** The registries differ in one entry, which is gone. */
  ghost predicate OnlyEntryGone(nodes: seq<Node>, nodes': seq<Node>, p: nat, s: nat, key: nat) {
    && |nodes'| == |nodes| && ValidShard(nodes', p, s) && key !in nodes'[p].shards[s].children
    && forall m: nat, j: nat, k: nat :: ValidShard(nodes', m, j) && (m != p || j != s || k != key) ==>
         && ValidShard(nodes, m, j)
         && (k in nodes'[m].shards[j].children <==> k in nodes[m].shards[j].children)
         && (k in nodes'[m].shards[j].children ==> nodes'[m].shards[j].children[k] == nodes[m].shards[j].children[k])
  }

  lemma EntryGone(nodes: seq<Node>, n: nat)
    requires Listed(nodes, n)
    ensures OnlyEntryGone(nodes, Deregistered(nodes, n), nodes[n].link.parent, nodes[n].link.shard, nodes[n].link.key.value)
  {
    var nodes', p, s := Deregistered(nodes, n), nodes[n].link.parent, nodes[n].link.shard;
    assert nodes'[p].shards[s].children == nodes[p].shards[s].children - {nodes[n].link.key.value};
    assert forall m: nat, j: nat :: ValidShard(nodes', m, j) && (m != p || j != s) ==> nodes'[m].shards[j].children == nodes[m].shards[j].children;
  }

  /** Deregistering a child takes its own entry, and nothing else, out of the registries. */
  lemma DeregistersItself(sys: Sys, t: nat, ch: Choice)
    requires Reachable(sys) && Enabled(sys, Run(t, ch))
    requires var f := Last(sys.threads[t]); f.Collect? && f.dpc.Deregister? && IsChild(sys.nodes, f.n)
    ensures var n := Last(sys.threads[t]).n;
            Listed(sys.nodes, n)
            && OnlyEntryGone(sys.nodes, Apply(sys, Run(t, ch)).nodes, sys.nodes[n].link.parent, sys.nodes[n].link.shard, sys.nodes[n].link.key.value)
  {
    hide Reachable, ThreadTokens, Balanced, Words, Latches, Registries, Duties, Waiters, Lives, Calls, Uses;
    hide OnlyEntryGone;
    ReachableInv(sys);
    TopFacts(sys, t);
    var f := Last(sys.threads[t]);
    assert sys.threads[t] == [f];
    assert IsChild(sys.nodes, sys.threads[t][0].n) ==> Listed(sys.nodes, f.n);
    assert Apply(sys, Run(t, ch)).nodes == Deregistered(sys.nodes, f.n);
    EntryGone(sys.nodes, f.n);
  }
}
