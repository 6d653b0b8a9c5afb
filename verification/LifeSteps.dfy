/** Every transition keeps the registries exact, and a node alive while anything refers to it. A
    child whose destructor ends counts nothing, and has left its parent shard and its registry. */
module LifeSteps {
  import opened Memory
  import opened Protocol
  import opened Ledger
  import opened LedgerSteps
  import opened Invariant
  import opened MemorySteps
  import opened StackSteps
  import opened DutySteps

  // ---- Transitions that change the words of one node --------------------------------------------------

  predicate SameButWords(a: Node, b: Node) {
    && b.life == a.life && b.link == a.link && b.handles == a.handles && |b.shards| == |a.shards|
    && forall s :: 0 <= s < |a.shards| ==> b.shards[s].children == a.shards[s].children
  }

  /** Only words of `n` change. */
  predicate WordsOf(nodes: seq<Node>, nodes': seq<Node>, n: nat) {
    && |nodes'| == |nodes| && n < |nodes| && SameButWords(nodes[n], nodes'[n])
    && forall m :: 0 <= m < |nodes| && m != n ==> nodes'[m] == nodes[m]
  }

  lemma SetShardLocal(nodes: seq<Node>, n: nat, s: nat, w: ShardWord)
    requires ValidShard(nodes, n, s)
    ensures WordsOf(nodes, SetShard(nodes, n, s, w), n)
  {
  }

  lemma SameLocal(nodes: seq<Node>, n: nat)
    requires ValidNode(nodes, n)
    ensures WordsOf(nodes, nodes, n)
  {
  }

  lemma ShardFramesLocal(sys: Sys, f: Frame, ch: Choice)
    requires Safe(sys.nodes, f) && Allowed(sys.nodes, f, ch) && (f.ArriveShard? || f.DepartShard? || f.Flush? || f.Probe? || f.FlushIfAlive?)
    ensures WordsOf(sys.nodes, Perform(sys, f, ch).nodes, f.n)
  {
    hide WordsOf, SetShard;
    forall w ensures WordsOf(sys.nodes, SetShard(sys.nodes, f.n, f.s, w), f.n) { SetShardLocal(sys.nodes, f.n, f.s, w); }
    SameLocal(sys.nodes, f.n);
  }

  lemma NodeFramesLocal(sys: Sys, f: Frame, ch: Choice)
    requires Safe(sys.nodes, f) && Allowed(sys.nodes, f, ch) && (f.ArriveNode? || f.DepartNode? || f.NotifyZero? || f.Release?)
    ensures WordsOf(sys.nodes, Perform(sys, f, ch).nodes, f.n)
  {
    hide NotifyAll;
  }

  lemma StopFramesLocal(sys: Sys, f: Frame, ch: Choice)
    requires Safe(sys.nodes, f) && Allowed(sys.nodes, f, ch) && (f.Stop? || (f.Collect? && f.dpc.DropLatch?))
    ensures WordsOf(sys.nodes, Perform(sys, f, ch).nodes, f.n)
  {
    hide LiveChildren, NotifyAll;
  }

  lemma ListedFrame(nodes: seq<Node>, nodes': seq<Node>, n: nat, c: nat)
    requires WordsOf(nodes, nodes', n)
    ensures Listed(nodes', c) <==> Listed(nodes, c)
  {
  }

  lemma WordsKeepRegistries(nodes: seq<Node>, nodes': seq<Node>, n: nat)
    requires Registries(nodes) && WordsOf(nodes, nodes', n)
    ensures Registries(nodes')
  {
    hide Listed;
    forall c: nat ensures Listed(nodes', c) <==> Listed(nodes, c) { ListedFrame(nodes, nodes', n, c); }
    forall m: nat, s: nat, k: nat ensures EntryOk(nodes', m, s, k) {
      assert EntryOk(nodes, m, s, k);
      assert ValidShard(nodes, m, s) ==> nodes[m].shards[s].children == nodes'[m].shards[s].children;
    }
  }

  lemma WordsKeepLives(nodes: seq<Node>, nodes': seq<Node>, guards: multiset<Home>, guards': multiset<Home>, n: nat)
    requires Lives(nodes, guards) && WordsOf(nodes, nodes', n) && (nodes[n].link.Child? ==> !nodes[n].life.Freed?)
    requires forall h :: h in guards' ==>
               h in guards || (h.node == n && ValidShard(nodes, n, h.shard) && (nodes[n].link.Child? ==> nodes[n].life.Live?))
    ensures Lives(nodes', guards')
  {
  }

  // ---- Transitions that change a registry, a life or the handles ---------------------------------------

  lemma AddNodeKeeps(nodes: seq<Node>, guards: multiset<Home>, link: Link, shards: nat, handles: nat)
    requires Registries(nodes) && Lives(nodes, guards)
    requires link.Child? ==> link.key.None? && link.parent < |nodes| && nodes[link.parent].life.Live?
    ensures var nodes' := nodes + [NewNode(link, shards, handles)];
            && Registries(nodes') && Lives(nodes', guards)
            && (forall c: nat :: Listed(nodes, c) ==> Listed(nodes', c))
  {
    var nodes' := nodes + [NewNode(link, shards, handles)];
    forall n: nat, s: nat, k: nat ensures EntryOk(nodes', n, s, k) { assert EntryOk(nodes, n, s, k); }
    forall c: nat | c < |nodes| ensures Listed(nodes', c) <==> Listed(nodes, c) {}
  }

  lemma RegisteredKeeps(nodes: seq<Node>, p: nat, c: nat, key: nat)
    requires Registries(nodes) && Forest(nodes)
    requires IsChild(nodes, c) && nodes[c].link.parent == p && nodes[c].link.key.None? && !nodes[c].life.Freed?
    requires key !in nodes[p].shards[nodes[c].link.shard].children
    ensures Registries(Registered(nodes, p, c, key)) && forall d: nat :: Listed(nodes, d) ==> Listed(Registered(nodes, p, c, key), d)
  {
    var nodes' := Registered(nodes, p, c, key);
    forall n: nat, s: nat, k: nat ensures EntryOk(nodes', n, s, k) { assert EntryOk(nodes, n, s, k); }
    forall d: nat | d != c ensures Listed(nodes', d) <==> Listed(nodes, d) {}
    assert Listed(nodes', c);
  }

  /** Nothing but registries and keys differ. */
  predicate SameButKeys(a: Node, b: Node) {
    && b.life == a.life && b.word == a.word && b.handles == a.handles && |b.shards| == |a.shards|
    && (b.link.Child? <==> a.link.Child?) && (a.link.Child? ==> b.link.parent == a.link.parent)
    && forall s :: 0 <= s < |a.shards| ==> b.shards[s].word == a.shards[s].word
  }

  lemma KeysKeepLives(nodes: seq<Node>, nodes': seq<Node>, guards: multiset<Home>)
    requires Lives(nodes, guards) && |nodes'| == |nodes| && forall n :: 0 <= n < |nodes| ==> SameButKeys(nodes[n], nodes'[n])
    ensures Lives(nodes', guards)
  {
    assert forall n: nat :: n < |nodes| && Empty(nodes[n]) ==> Empty(nodes'[n]);
  }

  lemma RegisteredLives(nodes: seq<Node>, guards: multiset<Home>, p: nat, c: nat, key: nat)
    requires Lives(nodes, guards) && Forest(nodes) && IsChild(nodes, c) && nodes[c].link.parent == p
    ensures Lives(Registered(nodes, p, c, key), guards)
  {
    hide Lives;
    KeysKeepLives(nodes, Registered(nodes, p, c, key), guards);
  }

  /** The registry without the entry of `n`. */
  function Deregistered(nodes: seq<Node>, n: nat): seq<Node>
    requires IsChild(nodes, n) && nodes[n].link.key.Some? && ValidShard(nodes, nodes[n].link.parent, nodes[n].link.shard)
  {
    var p, s := nodes[n].link.parent, nodes[n].link.shard;
    SetChildren(nodes, p, s, nodes[p].shards[s].children - {nodes[n].link.key.value})
  }

  /** Deregistering a listed child takes that child out of its registry, and no other child. */
  lemma DeregisteredKeeps(nodes: seq<Node>, guards: multiset<Home>, n: nat)
    requires Registries(nodes) && Lives(nodes, guards) && Listed(nodes, n) && nodes[n].life.Dropping?
    ensures var nodes' := Deregistered(nodes, n);
            && Registries(nodes') && Lives(nodes', guards)
            && (forall d: nat :: Listed(nodes', d) <==> Listed(nodes, d) && d != n)
  {
    var nodes' := Deregistered(nodes, n);
    forall m: nat, s: nat, k: nat ensures EntryOk(nodes', m, s, k) { assert EntryOk(nodes, m, s, k); }
    forall d: nat ensures Listed(nodes', d) <==> Listed(nodes, d) && d != n {}
  }

  lemma SetLifeRegistries(nodes: seq<Node>, n: nat, life: Life)
    requires Registries(nodes) && ValidNode(nodes, n) && !life.Live? && (life.Freed? ==> !Listed(nodes, n))
    ensures Registries(SetLife(nodes, n, life)) && forall d: nat :: Listed(SetLife(nodes, n, life), d) <==> Listed(nodes, d)
  {
    var nodes' := SetLife(nodes, n, life);
    forall m: nat, s: nat, k: nat ensures EntryOk(nodes', m, s, k) { assert EntryOk(nodes, m, s, k); }
    forall d: nat ensures Listed(nodes', d) <==> Listed(nodes, d) {}
  }

  lemma SetHandlesKeeps(nodes: seq<Node>, guards: multiset<Home>, n: nat, handles: nat)
    requires Registries(nodes) && Lives(nodes, guards) && ValidNode(nodes, n) && nodes[n].life.Live?
    ensures var nodes' := SetHandles(nodes, n, handles);
            Registries(nodes') && Lives(nodes', guards) && forall d: nat :: Listed(nodes', d) <==> Listed(nodes, d)
  {
    var nodes' := SetHandles(nodes, n, handles);
    forall m: nat, s: nat, k: nat ensures EntryOk(nodes', m, s, k) { assert EntryOk(nodes, m, s, k); }
    forall d: nat ensures Listed(nodes', d) <==> Listed(nodes, d) {}
  }

  lemma DroppingKeeps(nodes: seq<Node>, guards: multiset<Home>, n: nat)
    requires Lives(nodes, guards) && ValidNode(nodes, n) && nodes[n].life.Live? && nodes[n].handles == 0
    requires forall c :: 0 <= c < |nodes| && nodes[c].link.Child? && nodes[c].link.parent == n ==> nodes[c].life.Freed?
    requires nodes[n].link.Child? ==> forall h :: h in guards ==> h.node != n
    ensures Lives(SetLife(nodes, n, Dropping), guards)
  {
  }

  lemma FreedKeeps(nodes: seq<Node>, guards: multiset<Home>, n: nat)
    requires Lives(nodes, guards) && ValidNode(nodes, n) && nodes[n].life.Dropping? && (nodes[n].link.Child? ==> Empty(nodes[n]))
    ensures Lives(SetLife(nodes, n, Freed), guards)
  {
  }

  // ---- A child's destructor ends ------------------------------------------------------------------------

  lemma OwnedBy(f: Frame, x: Token)
    requires IsUnit(x) && x in Tokens(f)
    ensures match f
            case ArriveShard(n, _, _, pc) => x == NodeUnit(n)
            case ArriveNode(n, pc) => pc.NCas? && x == KidUnit(pc.p, pc.index)
            case DepartShard(n, s, u, _) => x == UnitToken(n, s, u)
            case DepartNode(n, _) => x == NodeUnit(n)
            case _ => false
  {
    hide Tokens;
    TokensOwned(f, x);
  }

  /** Whoever owns a unit of a child, or is to flush or release it, uses it. */
  lemma OwnerTouches(nodes: seq<Node>, f: Frame, x: Token, n: nat)
    requires FrameOk(nodes, f) && x in Tokens(f) && IsChild(nodes, n)
    requires (IsUnit(x) || x.MustFlush? || x.MustRelease?) && x.n == n
    ensures n in Touches(f)
  {
    hide Tokens, StopTokens, SeenOk, LeftOk, StopOk, AllStopped, Listed;
    if IsUnit(x) { OwnedBy(f, x); } else { TokensDebt(f, x); }
  }

  /** When a child's destructor ends, no call owns a unit of it or owes it a change. */
  lemma CollectedUnowned(sys: Sys, t: nat, n: nat, x: Token)
    requires Stacks(sys.nodes, sys.threads) && CollectsOwed(sys.nodes, ThreadTokens(sys.threads)) && IsChild(sys.nodes, n)
    requires t < |sys.threads| && sys.threads[t] == [Collect(n, Free)]
    requires (IsUnit(x) || x.MustFlush? || x.MustRelease?) && x.n == n
    ensures x !in ThreadTokens(sys.threads)
  {
    hide ThreadTokens, FrameOk, CollectsOwed;
    if x in ThreadTokens(sys.threads) {
      var u, k := HeldByFrame(sys.threads, x);
      if u != t {
        assert StackOk(sys.nodes, sys.threads[u]);
        OwnerTouches(sys.nodes, sys.threads[u][k], x, n);
        FreedUnused(sys, t, u);
      }
    }
  }

  lemma CollectedShardEmpty(sys: Sys, t: nat, n: nat, s: nat)
    requires Inv(sys) && IsChild(sys.nodes, n) && t < |sys.threads| && sys.threads[t] == [Collect(n, Free)] && sys.nodes[n].life.Dropping?
    requires ValidShard(sys.nodes, n, s) && sys.nodes[n].shards[s].word.stopped
    ensures sys.nodes[n].shards[s].word == EMPTY_SHARD.(stopped := true)
  {
    hide ThreadTokens, WordTokens, FrameOk, StackOk, Words, Registries, Waiters, Latches, ReleasesOwed, LatchesOwed;
    hide StopsOwed, RegistersOwed, CollectsOwed;
    var held := ThreadTokens(sys.threads);
    CollectedUnowned(sys, t, n, LocalUnit(n, s));
    CollectedUnowned(sys, t, n, KidUnit(n, s));
    CollectedUnowned(sys, t, n, MustFlush(n, s));
    LocalUnitNotInWords(sys.nodes, n, s);
    assert Home(n, s) !in sys.guards;
    assert Counter(sys.nodes, LocalUnit(n, s)) == Owners(sys.nodes, sys.guards, held, LocalUnit(n, s));
    assert Counter(sys.nodes, KidUnit(n, s)) == Owners(sys.nodes, sys.guards, held, KidUnit(n, s));
    if KidUnit(n, s) in WordTokens(sys.nodes) {
      var c := KidUnitOwner(sys.nodes, n, s);
    }
    assert !NeedsFlush(sys.nodes, n, s);
  }

  lemma CollectedNodeEmpty(sys: Sys, t: nat, n: nat)
    requires Inv(sys) && IsChild(sys.nodes, n) && t < |sys.threads| && sys.threads[t] == [Collect(n, Free)] && sys.nodes[n].life.Dropping?
    requires AllStopped(sys.nodes[n], |sys.nodes[n].shards|)
    ensures Empty(sys.nodes[n])
  {
    hide ThreadTokens, WordTokens, FrameOk, StackOk, Registries, Waiters, Latches, Lives, FlushesOwed, LatchesOwed;
    hide StopsOwed, RegistersOwed, CollectsOwed;
    var held := ThreadTokens(sys.threads);
    forall s: nat | s < |sys.nodes[n].shards| ensures sys.nodes[n].shards[s].word == EMPTY_SHARD.(stopped := true) {
      CollectedShardEmpty(sys, t, n, s);
    }
    CollectedUnowned(sys, t, n, NodeUnit(n));
    CollectedUnowned(sys, t, n, MustRelease(n, sys.nodes[n].word));
    assert Counter(sys.nodes, NodeUnit(n)) == Owners(sys.nodes, sys.guards, held, NodeUnit(n));
    if NodeUnit(n) in WordTokens(sys.nodes) {
      var s := NodeUnitOwner(sys.nodes, n);
    }
    assert !NeedsRelease(sys.nodes, n);
    assert WordOk(sys.nodes, n, sys.nodes[n].word);
  }

  // ---- Every transition ---------------------------------------------------------------------------------

  /** A call that is neither a departure nor a collection uses live nodes only. */
  lemma UserLive(sys: Sys, t: nat)
    requires Stacks(sys.nodes, sys.threads) && t < |sys.threads| && |sys.threads[t]| > 0
    requires !Departing(Last(sys.threads[t])) && !Last(sys.threads[t]).Collect?
    ensures forall m :: m in Touches(Last(sys.threads[t])) ==> m < |sys.nodes| && sys.nodes[m].life.Live?
  {
    hide FrameOk, Touches;
    var stack := sys.threads[t];
    assert StackOk(sys.nodes, stack);
    if stack[0].Collect? { CollectorsStack(sys.nodes, stack); }
    forall m | m in Touches(Last(stack)) ensures m < |sys.nodes| && sys.nodes[m].life.Live? {
      assert Anchored(sys.nodes, stack[0], m);
    }
  }

  ghost predicate LivesKept(sys: Sys, f: Frame, ch: Choice)
    requires Safe(sys.nodes, f) && Allowed(sys.nodes, f, ch)
  {
    var o := Perform(sys, f, ch);
    && Registries(o.nodes) && Lives(o.nodes, o.guards)
    && forall d: nat :: Listed(sys.nodes, d) && !(f.Collect? && f.dpc.Deregister? && d == f.n) ==> Listed(o.nodes, d)
  }

  /** The guards change only when an arrival counts a new one. */
  lemma GuardsGrow(sys: Sys, f: Frame, ch: Choice)
    requires Safe(sys.nodes, f) && Allowed(sys.nodes, f, ch)
    ensures var o := Perform(sys, f, ch);
            o.guards == sys.guards || ((f.ArriveShard? || (f.Probe? && f.ppc.PLoop?)) && o.guards == sys.guards + multiset{Home(f.n, f.s)})
  {
    hide SetShard, SetNode, SetLife, SetChildren, SetHandles, NotifyAll, LiveChildren, Registered;
  }

  lemma WordFrameKeeps(sys: Sys, f: Frame, ch: Choice)
    requires Safe(sys.nodes, f) && Allowed(sys.nodes, f, ch) && FrameOk(sys.nodes, f) && Registries(sys.nodes) && Lives(sys.nodes, sys.guards)
    requires !f.NewChild? && WordsOf(sys.nodes, Perform(sys, f, ch).nodes, f.n)
    requires f.Probe? || (f.DepartShard? && !f.pinned) || f.FlushIfAlive? || !sys.nodes[f.n].life.Freed?
    requires f.Probe? && f.ppc.Upgrade? ==> Perform(sys, f, ch).nodes == sys.nodes
    requires f.ArriveShard? ==> sys.nodes[f.n].life.Live?
    ensures LivesKept(sys, f, ch)
  {
    hide WordsOf, Lives, Registries, Listed, LeftOk, StopOk, SeenOk, AllStopped, Perform;
    var o := Perform(sys, f, ch);
    GuardsGrow(sys, f, ch);
    if o.nodes != sys.nodes || o.guards != sys.guards {
      WordsKeepRegistries(sys.nodes, o.nodes, f.n);
      forall d: nat ensures Listed(o.nodes, d) <==> Listed(sys.nodes, d) { ListedFrame(sys.nodes, o.nodes, f.n, d); }
      WordsKeepLives(sys.nodes, o.nodes, sys.guards, o.guards, f.n);
    }
  }

  lemma NewChildKeeps(sys: Sys, p: nat, pc: ChildPc, ch: Choice)
    requires Safe(sys.nodes, NewChild(p, pc)) && Allowed(sys.nodes, NewChild(p, pc), ch)
    requires Registries(sys.nodes) && Lives(sys.nodes, sys.guards) && Forest(sys.nodes)
    requires sys.nodes[p].life.Live? && (!pc.Alloc? ==> sys.nodes[pc.child].life.Live?) && (pc.Register? ==> sys.nodes[pc.child].link.key.None?)
    ensures LivesKept(sys, NewChild(p, pc), ch)
  {
    hide Registries, Lives, Registered, Forest, NewNode, Listed, SetHandles;
    match pc
    case Alloc(s) => AddNodeKeeps(sys.nodes, sys.guards, Child(p, s, None), 1, 0);
    case Register(c) =>
      RegisteredKeeps(sys.nodes, p, c, ch.key);
      RegisteredLives(sys.nodes, sys.guards, p, c, ch.key);
    case Check(_) =>
    case Finish(c, _) => SetHandlesKeeps(sys.nodes, sys.guards, c, sys.nodes[c].handles + 1);
  }

  lemma CollectKeeps(sys: Sys, n: nat, pc: DropPc, ch: Choice)
    requires FrameOk(sys.nodes, Collect(n, pc)) && Registries(sys.nodes) && Lives(sys.nodes, sys.guards)
    requires sys.nodes[n].life.Dropping? && !pc.DropLatch?
    requires IsChild(sys.nodes, n) && pc.Deregister? ==> Listed(sys.nodes, n)
    requires IsChild(sys.nodes, n) && pc.Free? ==> Empty(sys.nodes[n])
    ensures LivesKept(sys, Collect(n, pc), ch)
  {
    hide Registries, Lives, SetLife, Empty, AllStopped;
    if pc.Free? {
      assert !Listed(sys.nodes, n);
      SetLifeRegistries(sys.nodes, n, Freed);
      FreedKeeps(sys.nodes, sys.guards, n);
    } else if IsChild(sys.nodes, n) {
      DeregisteredKeeps(sys.nodes, sys.guards, n);
    }
  }

  lemma WordsForest(nodes: seq<Node>)
    requires Words(nodes)
    ensures Forest(nodes)
  {
  }

  lemma FreeStopped(nodes: seq<Node>, n: nat)
    requires FrameOk(nodes, Collect(n, Free))
    ensures AllStopped(nodes[n], |nodes[n].shards|)
  {
  }

  lemma SafeNode(nodes: seq<Node>, f: Frame)
    requires Safe(nodes, f)
    ensures f.NewChild? || f.n < |nodes|
  {
  }

  /** A frame that holds its node keeps it from being freed. */
  lemma HeldUnfreed(sys: Sys, t: nat)
    requires Stacks(sys.nodes, sys.threads) && t < |sys.threads| && |sys.threads[t]| > 0
    requires var f := Last(sys.threads[t]); !f.NewChild? && !f.Collect?
    ensures var f := Last(sys.threads[t]);
            f.Probe? || (f.DepartShard? && !f.pinned) || f.FlushIfAlive? || (f.n < |sys.nodes| && !sys.nodes[f.n].life.Freed?)
  {
    hide FrameOk;
    assert StackOk(sys.nodes, sys.threads[t]);
    var f := Last(sys.threads[t]);
    assert f.n in Touches(f) ==> Anchored(sys.nodes, sys.threads[t][0], f.n);
  }

  lemma UpgradeKeepsNodes(sys: Sys, f: Frame, ch: Choice)
    requires f.Probe? && f.ppc.Upgrade? && Safe(sys.nodes, f) && Allowed(sys.nodes, f, ch)
    ensures Perform(sys, f, ch).nodes == sys.nodes
  {
  }

  lemma WordRunLives(sys: Sys, t: nat, ch: Choice)
    requires Inv(sys) && Enabled(sys, Run(t, ch)) && !Last(sys.threads[t]).NewChild? && !Last(sys.threads[t]).Collect?
    ensures LivesKept(sys, Last(sys.threads[t]), ch)
  {
    hide Inv, ThreadTokens, Balanced, Perform, Allowed, Safe, Words, Latches, Registries, CollectsOwed, Lives;
    hide StackOk, Stacks, FrameOk, LivesKept, WordsOf, Uses, Waiting;
    var f := Last(sys.threads[t]);
    TopFacts(sys, t);
    LivesFacts(sys);
    SafeNode(sys.nodes, f);
    HeldUnfreed(sys, t);
    if f.Probe? && f.ppc.Upgrade? { UpgradeKeepsNodes(sys, f, ch); }
    if f.ArriveShard? { UserLive(sys, t); }
    match f {
      case ArriveNode(_, _) => NodeFramesLocal(sys, f, ch);
      case DepartNode(_, _) => NodeFramesLocal(sys, f, ch);
      case NotifyZero(_, _) => NodeFramesLocal(sys, f, ch);
      case Release(_, _) => NodeFramesLocal(sys, f, ch);
      case Stop(_, _) => StopFramesLocal(sys, f, ch);
      case _ => ShardFramesLocal(sys, f, ch);
    }
    WordFrameKeeps(sys, f, ch);
  }

  lemma RunLives(sys: Sys, t: nat, ch: Choice)
    requires Inv(sys) && Enabled(sys, Run(t, ch))
    ensures LivesKept(sys, Last(sys.threads[t]), ch)
  {
    hide ThreadTokens, Balanced, Perform, Allowed, Safe, Words, Latches, Registries, Duties, Lives, Waiters;
    hide StackOk, FrameOk, LivesKept, Anchored, WordsOf, Listed;
    var f := Last(sys.threads[t]);
    TopFacts(sys, t);
    TopArmed(sys, t, ch);
    LivesFacts(sys);
    WordsForest(sys.nodes);
    SafeNode(sys.nodes, f);
    match f
    case NewChild(p, pc) =>
      UserLive(sys, t);
      NewChildKeeps(sys, p, pc, ch);
    case Collect(n, pc) =>
      if pc.DropLatch? {
        StopFramesLocal(sys, f, ch);
        WordFrameKeeps(sys, f, ch);
      } else {
        assert sys.threads[t] == [f];
        if IsChild(sys.nodes, n) && pc.Free? {
          FreeStopped(sys.nodes, n);
          CollectedNodeEmpty(sys, t, n);
        }
        CollectKeeps(sys, n, pc, ch);
      }
    case _ => WordRunLives(sys, t, ch);
  }

  // ---- Departures ---------------------------------------------------------------------------------------

  lemma LatchContinues(sys: Sys, f: Frame, ch: Choice)
    requires Safe(sys.nodes, f) && Allowed(sys.nodes, f, ch)
    ensures var push := Perform(sys, f, ch).push;
            |push| > 0 && push[0].Collect? && !push[0].dpc.Free? ==> f.Collect? && f.n == push[0].n && f.dpc.DropLatch?
  {
    hide SetShard, SetNode, NotifyAll, LiveChildren, Registered, SetLife, SetChildren, SetHandles;
  }

  /** A call that still has to deregister a child had to before. */
  lemma BottomKept(sys: Sys, t: nat, ch: Choice)
    requires Enabled(sys, Run(t, ch)) && StackOk(sys.nodes, sys.threads[t])
    ensures var stack, stack' := sys.threads[t], Advance(sys, t, ch).threads[t];
            |stack'| > 0 && stack'[0].Collect? && !stack'[0].dpc.Free? ==>
              stack[0].Collect? && stack[0].n == stack'[0].n && !stack[0].dpc.Free? && !(Last(stack).Collect? && Last(stack).dpc.Deregister?)
  {
    hide FrameOk, Perform, Touches, Anchored, Safe, Allowed;
    var stack, stack' := sys.threads[t], Advance(sys, t, ch).threads[t];
    LatchContinues(sys, Last(stack), ch);
    if Last(stack).Collect? { CollectAlone(sys.nodes, stack); }
    if |stack| > 1 {
      assert |stack'| > 0 ==> stack'[0] == stack[0] || stack'[0] == Resume(stack[0]);
    } else {
      assert stack' == Perform(sys, Last(stack), ch).push;
    }
  }

  lemma CollectBottom(nodes: seq<Node>, stack: seq<Frame>)
    requires StackOk(nodes, stack) && |stack| > 0 && stack[0].Collect?
    ensures stack[0].n < |nodes|
  {
    assert FrameOk(nodes, stack[0]);
  }

  ghost predicate LinksKept(nodes: seq<Node>, nodes': seq<Node>) {
    |nodes| <= |nodes'| && forall n :: 0 <= n < |nodes| ==> (nodes'[n].link.Child? <==> nodes[n].link.Child?)
  }

  lemma RunDepartures(sys: Sys, t: nat, ch: Choice)
    requires Inv(sys) && Enabled(sys, Run(t, ch)) && LivesKept(sys, Last(sys.threads[t]), ch)
    requires LinksKept(sys.nodes, Advance(sys, t, ch).nodes)
    ensures Departures(Advance(sys, t, ch).nodes, Advance(sys, t, ch).threads)
  {
    hide ThreadTokens, Balanced, Perform, Allowed, Safe, Words, Latches, Registries, FlushesOwed, ReleasesOwed;
    hide Lives, Waiters, StackOk, FrameOk, Listed, Uses;
    var sys', f := Advance(sys, t, ch), Last(sys.threads[t]);
    TopFacts(sys, t);
    BottomKept(sys, t, ch);
    forall u | 0 <= u < |sys'.threads| && ToDeregister(sys'.nodes, sys'.threads[u])
      ensures Listed(sys'.nodes, sys'.threads[u][0].n)
    {
      assert StackOk(sys.nodes, sys.threads[u]);
      var n := sys'.threads[u][0].n;
      CollectBottom(sys.nodes, sys.threads[u]);
      assert Listed(sys.nodes, n);
      if u != t && f.Collect? && f.dpc.Deregister? { FreedUnused(sys, t, u); }
    }
  }

  /** The registries and the lives, before and after. */
  ghost predicate Kept(nodes: seq<Node>, nodes': seq<Node>, guards': multiset<Home>) {
    && Registries(nodes') && Lives(nodes', guards') && LinksKept(nodes, nodes')
    && forall d: nat :: Listed(nodes, d) ==> Listed(nodes', d)
  }

  lemma RootGuardKeeps(nodes: seq<Node>, guards: multiset<Home>, h: Home, w: ShardWord)
    requires Lives(nodes, guards) && h in guards && ValidShard(nodes, h.node, h.shard)
    ensures Lives(SetShard(nodes, h.node, h.shard, w), guards + multiset{h})
  {
  }

  lemma CloneGuardKeeps(nodes: seq<Node>, guards: multiset<Home>, h: Home, w: ShardWord)
    requires Registries(nodes) && Lives(nodes, guards) && h in guards && ValidShard(nodes, h.node, h.shard)
    ensures Kept(nodes, SetShard(nodes, h.node, h.shard, w), guards + multiset{h})
  {
    hide Registries, SetShard, Listed;
    var nodes' := SetShard(nodes, h.node, h.shard, w);
    SetShardLocal(nodes, h.node, h.shard, w);
    WordsKeepRegistries(nodes, nodes', h.node);
    if nodes[h.node].life.Freed? {
      RootGuardKeeps(nodes, guards, h, w);
    } else {
      WordsKeepLives(nodes, nodes', guards, guards + multiset{h}, h.node);
    }
    forall d: nat ensures Listed(nodes', d) <==> Listed(nodes, d) { ListedFrame(nodes, nodes', h.node, d); }
  }

  lemma UnpinnedKeeps(sys: Sys, n: nat)
    requires Registries(sys.nodes) && Lives(sys.nodes, sys.guards) && ValidNode(sys.nodes, n) && sys.nodes[n].life.Live? && Unpinned(sys, n)
    ensures Kept(sys.nodes, SetLife(sys.nodes, n, Dropping), sys.guards)
  {
    hide Registries, Listed, Lives;
    SetLifeRegistries(sys.nodes, n, Dropping);
    DroppingKeeps(sys.nodes, sys.guards, n);
  }

  lemma HandleLive(nodes: seq<Node>, guards: multiset<Home>, n: nat)
    requires Lives(nodes, guards) && ValidNode(nodes, n) && nodes[n].handles > 0
    ensures nodes[n].life.Live?
  {
  }

  lemma FewerGuards(nodes: seq<Node>, guards: multiset<Home>, h: Home)
    requires Lives(nodes, guards)
    ensures Lives(nodes, guards - multiset{h})
  {
  }

  lemma StartKept(sys: Sys, action: Action)
    requires Registries(sys.nodes) && Lives(sys.nodes, sys.guards) && Enabled(sys, action) && !action.Run?
    ensures Kept(sys.nodes, Apply(sys, action).nodes, Apply(sys, action).guards)
  {
    hide Registries, Lives, Listed, SetShard, SetLife, NewNode, Unpinned, Perform, Safe, Allowed, StepWaiter;
    match action
    case StartRoot(shards) => AddNodeKeeps(sys.nodes, sys.guards, Root, shards, 1);
    case StartCollect(_, n) => UnpinnedKeeps(sys, n);
    case CloneHandle(n) =>
      HandleLive(sys.nodes, sys.guards, n);
      SetHandlesKeeps(sys.nodes, sys.guards, n, sys.nodes[n].handles + 1);
    case DropHandle(_, n) =>
      HandleLive(sys.nodes, sys.guards, n);
      SetHandlesKeeps(sys.nodes, sys.guards, n, sys.nodes[n].handles - 1);
    case DropGuard(_, h) => FewerGuards(sys.nodes, sys.guards, h);
    case CloneGuard(h) => CloneGuardKeeps(sys.nodes, sys.guards, h, Plus(sys.nodes[h.node].shards[h.shard].word, Local));
    case _ =>
  }

  lemma StartDepartures(sys: Sys, action: Action)
    requires Inv(sys) && Enabled(sys, action) && !action.Run? && Kept(sys.nodes, Apply(sys, action).nodes, Apply(sys, action).guards)
    ensures Departures(Apply(sys, action).nodes, Apply(sys, action).threads)
  {
    hide ThreadTokens, Balanced, Perform, Allowed, Safe, Words, Latches, Lives, Duties, Waiters, StackOk, FrameOk;
    hide Listed, Unpinned, StepWaiter, SetShard;
    var sys' := Apply(sys, action);
    if action.StartCollect? { UnpinnedHasKey(sys, action.n); }
    forall u | 0 <= u < |sys'.threads| && ToDeregister(sys'.nodes, sys'.threads[u])
      ensures Listed(sys'.nodes, sys'.threads[u][0].n)
    {
      if sys'.threads[u] == sys.threads[u] {
        assert StackOk(sys.nodes, sys.threads[u]);
        CollectBottom(sys.nodes, sys.threads[u]);
      } else {
        assert action.StartCollect? && sys'.threads[u][0].n == action.n;
      }
    }
  }

  lemma RegistriesFacts(sys: Sys)
    requires Inv(sys)
    ensures Registries(sys.nodes) && Lives(sys.nodes, sys.guards)
  {
  }

  /** Every transition keeps the registries exact and the nodes in use alive. */
  lemma LivesStep(sys: Sys, action: Action)
    requires Inv(sys) && Enabled(sys, action) && MemoryOk(sys.nodes, Apply(sys, action).nodes)
    ensures var sys' := Apply(sys, action);
            Registries(sys'.nodes) && Lives(sys'.nodes, sys'.guards) && Departures(sys'.nodes, sys'.threads)
  {
    hide Inv, Perform, Allowed, Safe, Unpinned, Words, Latches, Registries, Lives, Departures, Listed, SetShard;
    hide StepWaiter;
    if action.Run? {
      RunLives(sys, action.t, action.ch);
      RunDepartures(sys, action.t, action.ch);
    } else {
      RegistriesFacts(sys);
      StartKept(sys, action);
      StartDepartures(sys, action);
    }
  }
}
