/** Every transition keeps the words well formed, and only ever moves the memory forward. */
module MemorySteps {
  import opened Memory
  import opened Protocol
  import opened Ledger
  import opened Invariant

  /** The memory part of the invariant, and its evolution. */
  ghost predicate MemoryOk(nodes: seq<Node>, nodes': seq<Node>) {
    Words(nodes') && Latches(nodes') && Evolves(nodes, nodes')
  }

  lemma SameOk(nodes: seq<Node>)
    requires Words(nodes) && Latches(nodes)
    ensures MemoryOk(nodes, nodes)
  {
  }

  lemma SetShardWords(nodes: seq<Node>, n: nat, s: nat, w: ShardWord)
    requires Words(nodes) && ValidShard(nodes, n, s) && ShardOk(w)
    ensures Words(SetShard(nodes, n, s, w))
  {
  }

  lemma SetShardOk(nodes: seq<Node>, n: nat, s: nat, w: ShardWord)
    requires Words(nodes) && Latches(nodes) && ValidShard(nodes, n, s)
    requires ShardOk(w) && ShardEvolves(nodes[n].shards[s].word, w)
    requires w.stopped ==> nodes[n].word.stopped || !nodes[n].life.Live?
    ensures MemoryOk(nodes, SetShard(nodes, n, s, w))
  {
    hide Words;
    SetShardWords(nodes, n, s, w);
  }

  lemma SetNodeOk(nodes: seq<Node>, n: nat, w: NodeWord)
    requires Words(nodes) && Latches(nodes) && ValidNode(nodes, n)
    requires WordOk(nodes, n, w) && (nodes[n].word.stopped ==> w.stopped)
    ensures MemoryOk(nodes, SetNode(nodes, n, w))
  {
  }

  lemma SetLifeOk(nodes: seq<Node>, n: nat, life: Life)
    requires Words(nodes) && Latches(nodes) && ValidNode(nodes, n)
    requires LifeRank(nodes[n].life) <= LifeRank(life)
    ensures MemoryOk(nodes, SetLife(nodes, n, life))
  {
  }

  lemma SetHandlesOk(nodes: seq<Node>, n: nat, handles: nat)
    requires Words(nodes) && Latches(nodes) && ValidNode(nodes, n)
    ensures MemoryOk(nodes, SetHandles(nodes, n, handles))
  {
  }

  lemma RemoveKeyOk(nodes: seq<Node>, n: nat, s: nat, key: nat)
    requires Words(nodes) && Latches(nodes) && ValidShard(nodes, n, s)
    ensures MemoryOk(nodes, SetChildren(nodes, n, s, nodes[n].shards[s].children - {key}))
  {
  }

  lemma AddNodeOk(nodes: seq<Node>, node: Node)
    requires Words(nodes) && Latches(nodes)
    requires |node.shards| > 0 && node.word == EMPTY_NODE && forall s :: 0 <= s < |node.shards| ==> node.shards[s].word == EMPTY_SHARD
    requires node.link.Child? ==> ValidShard(nodes, node.link.parent, node.link.shard)
    ensures MemoryOk(nodes, nodes + [node])
  {
  }

  lemma RegisteredKeepsWords(nodes: seq<Node>, p: nat, c: nat, key: nat)
    requires IsChild(nodes, c) && p != c && ValidShard(nodes, p, nodes[c].link.shard)
    ensures var nodes' := Registered(nodes, p, c, key);
            |nodes'| == |nodes| && forall n :: 0 <= n < |nodes| ==> SameWords(nodes[n], nodes'[n]) && nodes'[n].life == nodes[n].life
  {
  }

  lemma SameWordsOk(nodes: seq<Node>, nodes': seq<Node>)
    requires Words(nodes) && |nodes'| == |nodes| && forall n :: 0 <= n < |nodes| ==> SameWords(nodes[n], nodes'[n])
    ensures Words(nodes')
  {
  }

  lemma SameLatches(nodes: seq<Node>, nodes': seq<Node>)
    requires Latches(nodes) && |nodes'| == |nodes|
    requires forall n :: 0 <= n < |nodes| ==> SameWords(nodes[n], nodes'[n]) && nodes'[n].life == nodes[n].life
    ensures Latches(nodes')
  {
  }

  lemma RegisteredWords(nodes: seq<Node>, p: nat, c: nat, key: nat)
    requires Words(nodes) && Latches(nodes)
    requires IsChild(nodes, c) && p != c && nodes[c].link.parent == p && ValidShard(nodes, p, nodes[c].link.shard)
    ensures Words(Registered(nodes, p, c, key)) && Latches(Registered(nodes, p, c, key))
  {
    hide Registered;
    RegisteredKeepsWords(nodes, p, c, key);
    SameWordsOk(nodes, Registered(nodes, p, c, key));
    SameLatches(nodes, Registered(nodes, p, c, key));
  }

  lemma RegisteredOk(nodes: seq<Node>, p: nat, c: nat, key: nat)
    requires Words(nodes) && Latches(nodes)
    requires IsChild(nodes, c) && p != c && nodes[c].link.parent == p && nodes[c].link.key.None? && ValidShard(nodes, p, nodes[c].link.shard)
    ensures MemoryOk(nodes, Registered(nodes, p, c, key))
  {
    hide Words, Latches;
    RegisteredWords(nodes, p, c, key);
  }

  /** A counter is positive while a frame owns one of its units. */
  lemma OwnedIsCounted(sys: Sys, t: nat, k: nat, unit: Token)
    requires Balanced(sys.nodes, sys.guards, ThreadTokens(sys.threads))
    requires t < |sys.threads| && k < |sys.threads[t]| && IsUnit(unit) && unit in Tokens(sys.threads[t][k])
    ensures Counter(sys.nodes, unit) > 0
  {
    FrameHolds(sys.threads, t, k);
    hide Tokens;
  }

  // ---- One transition -------------------------------------------------------------------------------

  /** What a frame's transition may rely on. */
  ghost predicate Armed(sys: Sys, f: Frame, ch: Choice) {
    && Words(sys.nodes) && Latches(sys.nodes) && FrameOk(sys.nodes, f) && Allowed(sys.nodes, f, ch)
    && (f.DepartShard? ==> Counter(sys.nodes, UnitToken(f.n, f.s, f.unit)) > 0)
    && (f.DepartNode? ==> Counter(sys.nodes, NodeUnit(f.n)) > 0)
    && (f.NewChild? && f.cpc.Register? ==> sys.nodes[f.cpc.child].link.key.None?)
  }

  lemma TopArmed(sys: Sys, t: nat, ch: Choice)
    requires Inv(sys) && Enabled(sys, Run(t, ch))
    ensures Armed(sys, Last(sys.threads[t]), ch)
  {
    var k := |sys.threads[t]| - 1;
    var f := sys.threads[t][k];
    assert StackOk(sys.nodes, sys.threads[t]);
    if f.DepartShard? { OwnedIsCounted(sys, t, k, UnitToken(f.n, f.s, f.unit)); }
    if f.DepartNode? { OwnedIsCounted(sys, t, k, NodeUnit(f.n)); }
    if f.NewChild? && f.cpc.Register? {
      assert MustRegister(f.cpc.child) in Tokens(f);
      FrameHolds(sys.threads, t, k);
    }
  }

  ghost predicate MovesForward(sys: Sys, f: Frame, ch: Choice)
    requires Safe(sys.nodes, f) && Allowed(sys.nodes, f, ch)
  {
    MemoryOk(sys.nodes, Perform(sys, f, ch).nodes)
  }

  lemma ShardFramesMove(sys: Sys, f: Frame, ch: Choice)
    requires Armed(sys, f, ch) && (f.ArriveShard? || f.DepartShard? || f.Flush? || f.Probe?)
    ensures MovesForward(sys, f, ch)
  {
    var nodes' := Perform(sys, f, ch).nodes;
    var w, w' := sys.nodes[f.n].shards[f.s].word, nodes'[f.n].shards[f.s].word;
    if nodes' != sys.nodes {
      assert nodes' == SetShard(sys.nodes, f.n, f.s, w');
      SetShardOk(sys.nodes, f.n, f.s, w');
    }
  }

  lemma NodeFramesMove(sys: Sys, f: Frame, ch: Choice)
    requires Armed(sys, f, ch) && (f.ArriveNode? || f.DepartNode? || f.Release? || f.NotifyZero? || f.FlushIfAlive?)
    ensures MovesForward(sys, f, ch)
  {
    var nodes' := Perform(sys, f, ch).nodes;
    var w' := nodes'[f.n].word;
    if nodes' != sys.nodes {
      assert nodes' == SetNode(sys.nodes, f.n, w');
      SetNodeOk(sys.nodes, f.n, w');
    }
  }

  lemma StopMoves(sys: Sys, f: Frame, ch: Choice)
    requires Armed(sys, f, ch) && f.Stop?
    ensures MovesForward(sys, f, ch)
  {
    hide LiveChildren, NotifyAll;
    var n := f.n;
    match f.stpc
    case Begin => if !sys.nodes[n].word.stopped { SetNodeOk(sys.nodes, n, sys.nodes[n].word.(stopped := true)); }
    case Latch(i, _) => if i < |sys.nodes[n].shards| { SetShardOk(sys.nodes, n, i, sys.nodes[n].shards[i].word.(stopped := true)); }
    case _ =>
  }

  lemma CollectMoves(sys: Sys, f: Frame, ch: Choice)
    requires Armed(sys, f, ch) && f.Collect?
    ensures MovesForward(sys, f, ch)
  {
    var n := f.n;
    match f.dpc
    case DropLatch(i) => if i < |sys.nodes[n].shards| { SetShardOk(sys.nodes, n, i, sys.nodes[n].shards[i].word.(stopped := true)); }
    case Deregister =>
      if sys.nodes[n].link.Child? {
        RemoveKeyOk(sys.nodes, sys.nodes[n].link.parent, sys.nodes[n].link.shard, sys.nodes[n].link.key.value);
      }
    case Free => SetLifeOk(sys.nodes, n, Freed);
  }

  lemma NewChildMoves(sys: Sys, f: Frame, ch: Choice)
    requires Armed(sys, f, ch) && f.NewChild?
    ensures MovesForward(sys, f, ch)
  {
    hide MemoryOk, Words, Latches, Registered, SetHandles;
    match f.cpc
    case Alloc(s) => AddNodeOk(sys.nodes, NewNode(Child(f.parent, s, None), 1, 0));
    case Register(c) => RegisteredOk(sys.nodes, f.parent, c, ch.key);
    case Finish(c, _) => SetHandlesOk(sys.nodes, c, sys.nodes[c].handles + 1);
    case _ => SameOk(sys.nodes);
  }

  lemma RunMoves(sys: Sys, f: Frame, ch: Choice)
    requires Armed(sys, f, ch)
    ensures MovesForward(sys, f, ch)
  {
    hide Armed, MovesForward;
    match f
    case Stop(_, _) => StopMoves(sys, f, ch);
    case NewChild(_, _) => NewChildMoves(sys, f, ch);
    case Collect(_, _) => CollectMoves(sys, f, ch);
    case ArriveNode(_, _) => NodeFramesMove(sys, f, ch);
    case DepartNode(_, _) => NodeFramesMove(sys, f, ch);
    case Release(_, _) => NodeFramesMove(sys, f, ch);
    case NotifyZero(_, _) => NodeFramesMove(sys, f, ch);
    case FlushIfAlive(_, _) => NodeFramesMove(sys, f, ch);
    case _ => ShardFramesMove(sys, f, ch);
  }

  lemma GuardedShard(sys: Sys, h: Home)
    requires Inv(sys) && h in sys.guards
    ensures ValidShard(sys.nodes, h.node, h.shard) && sys.nodes[h.node].shards[h.shard].word.arrived
  {
    assert IsUnit(LocalUnit(h.node, h.shard));
  }

  lemma WordsFacts(sys: Sys)
    requires Inv(sys)
    ensures Words(sys.nodes) && Latches(sys.nodes)
  {
  }

  lemma CloneOk(nodes: seq<Node>, n: nat, s: nat)
    requires Words(nodes) && Latches(nodes) && ValidShard(nodes, n, s) && nodes[n].shards[s].word.arrived
    ensures MemoryOk(nodes, SetShard(nodes, n, s, Plus(nodes[n].shards[s].word, Local)))
  {
    hide Words;
    assert nodes[n].shards[s].word.stopped ==> nodes[n].word.stopped || !nodes[n].life.Live?;
    SetShardOk(nodes, n, s, Plus(nodes[n].shards[s].word, Local));
  }

  /** Every transition keeps the words well formed and moves the memory forward. */
  lemma MemoryStep(sys: Sys, action: Action)
    requires Inv(sys) && Enabled(sys, action)
    ensures MemoryOk(sys.nodes, Apply(sys, action).nodes)
  {
    hide Inv, Perform, Armed, Words, Latches, MemoryOk, Safe, Allowed, Unpinned, SetShard, SetLife, SetHandles;
    hide StepWaiter;
    WordsFacts(sys);
    match action
    case Run(t, ch) =>
      TopArmed(sys, t, ch);
      RunMoves(sys, Last(sys.threads[t]), ch);
    case StartRoot(shards) => AddNodeOk(sys.nodes, NewNode(Root, shards, 1));
    case StartCollect(t, n) => SetLifeOk(sys.nodes, n, Dropping);
    case CloneHandle(n) => SetHandlesOk(sys.nodes, n, sys.nodes[n].handles + 1);
    case DropHandle(t, n) => SetHandlesOk(sys.nodes, n, sys.nodes[n].handles - 1);
    case CloneGuard(h) =>
      GuardedShard(sys, h);
      CloneOk(sys.nodes, h.node, h.shard);
    case _ => SameOk(sys.nodes);
  }
}
