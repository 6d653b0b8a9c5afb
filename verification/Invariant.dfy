/** What holds in every reachable state. */
module Invariant {
  import opened Memory
  import opened Protocol
  import opened Ledger

  // ---- Words ----------------------------------------------------------------------------------------

  /** A shard that has not arrived is empty. */
  ghost predicate ShardOk(w: ShardWord) {
    !w.arrived ==> w.kids == 0 && w.local == 0
  }

  /** A child that has not arrived is empty; one that has says at which shard of its parent. */
  ghost predicate WordOk(nodes: seq<Node>, n: nat, w: NodeWord)
    requires ValidNode(nodes, n)
  {
    match nodes[n].link
    case Root => !w.arrived && w.home == 0
    case Child(p, _, _) => if w.arrived then ValidShard(nodes, p, w.home) else w.count == 0 && w.home == 0
  }

  ghost predicate Words(nodes: seq<Node>) {
    && Forest(nodes)
    && (forall n: nat, s: nat :: ValidShard(nodes, n, s) ==> ShardOk(nodes[n].shards[s].word))
    && (forall n: nat :: ValidNode(nodes, n) ==> WordOk(nodes, n, nodes[n].word))
  }

  /** A shard is stopped only if its node is stopped or being collected. */
  ghost predicate Latches(nodes: seq<Node>) {
    forall n: nat, s: nat :: ValidShard(nodes, n, s) && nodes[n].shards[s].word.stopped ==> nodes[n].word.stopped || !nodes[n].life.Live?
  }

  ghost predicate AllStopped(node: Node, upTo: nat)
    requires upTo <= |node.shards|
  {
    forall j :: 0 <= j < upTo ==> node.shards[j].word.stopped
  }

  // ---- Registries -----------------------------------------------------------------------------------

  /** The child's key maps to it in the registry of its parent shard. */
  ghost predicate Listed(nodes: seq<Node>, c: nat) {
    && IsChild(nodes, c) && ValidShard(nodes, nodes[c].link.parent, nodes[c].link.shard) && nodes[c].link.key.Some?
    && var children := nodes[nodes[c].link.parent].shards[nodes[c].link.shard].children;
       nodes[c].link.key.value in children && children[nodes[c].link.key.value] == c
  }

  /** What a registry lists under a key is a child of its own, with that key. */
  ghost predicate EntryOk(nodes: seq<Node>, n: nat, s: nat, k: nat) {
    ValidShard(nodes, n, s) && k in nodes[n].shards[s].children ==>
      var c := nodes[n].shards[s].children[k];
      c < |nodes| && nodes[c].link == Child(n, s, Some(k))
  }

  /** A registry lists its own children, each under its own key; every registered live child is
      listed, and no child whose destructor is over is. */
  ghost predicate Registries(nodes: seq<Node>) {
    && (forall n: nat, s: nat, k: nat :: EntryOk(nodes, n, s, k))
    && (forall c: nat :: IsChild(nodes, c) && nodes[c].life.Live? && nodes[c].link.key.Some? ==> Listed(nodes, c))
    && (forall c: nat :: IsChild(nodes, c) && nodes[c].life.Freed? ==> !Listed(nodes, c))
  }

  // ---- Frames ---------------------------------------------------------------------------------------

  ghost predicate SeenOk(nodes: seq<Node>, n: nat, s: nat, seen: ShardWord)
    requires ValidShard(nodes, n, s)
  {
    ShardOk(seen) && (seen.stopped ==> nodes[n].shards[s].word.stopped)
  }

  /** The word that an emptying departure left: if the node is a child then it had arrived, and it
      was stopped, or is being collected. */
  ghost predicate LeftOk(nodes: seq<Node>, n: nat, left: NodeWord)
    requires ValidNode(nodes, n)
  {
    && left.count == 0 && WordOk(nodes, n, left)
    && (nodes[n].link.Child? ==> left.arrived && (left.stopped || !nodes[n].life.Live?))
  }

  ghost predicate ChildrenOf(nodes: seq<Node>, n: nat, work: set<nat>) {
    forall c: nat :: c in work ==> IsChild(nodes, c) && nodes[c].link.parent == n
  }

  ghost predicate StopOk(nodes: seq<Node>, n: nat, pc: StopPc)
    requires ValidNode(nodes, n)
  {
    && (!pc.Begin? ==> nodes[n].word.stopped)
    && match pc
       case Begin => true
       case Latch(i, _) => i <= |nodes[n].shards| && AllStopped(nodes[n], i)
       case Snapshot(i, work, _) => AllStopped(nodes[n], |nodes[n].shards|) && i <= |nodes[n].shards| && ChildrenOf(nodes, n, work)
       case Descend(work, _) => AllStopped(nodes[n], |nodes[n].shards|) && ChildrenOf(nodes, n, work)
       case _ => AllStopped(nodes[n], |nodes[n].shards|)
  }

  /** What a frame knows about the memory. All of it outlives every transition. */
  ghost predicate FrameOk(nodes: seq<Node>, f: Frame) {
    && Safe(nodes, f)
    && match f
       case ArriveShard(n, s, _, pc) =>
         (pc.Load? || SeenOk(nodes, n, s, pc.seen)) && (pc.Wait? || pc.Cas? ==> !pc.seen.arrived)
       case ArriveNode(n, pc) =>
         && (!pc.NLoad? ==> nodes[n].link.Child? && WordOk(nodes, n, pc.nseen))
         && (pc.NWait? || pc.NCas? ==> !pc.nseen.arrived && pc.p == nodes[n].link.parent && ValidShard(nodes, pc.p, pc.index))
       case DepartShard(n, s, unit, pinned) => !pinned ==> nodes[n].link.Root? && unit == Local
       case FlushIfAlive(n, s) => nodes[n].link.Root?
       case DepartNode(n, s) => nodes[n].shards[s].word.arrived || nodes[n].shards[s].word.stopped
       case NotifyZero(n, left) => LeftOk(nodes, n, left) && nodes[n].word.stopped
       case Release(n, left) => LeftOk(nodes, n, left)
       case Stop(n, pc) => StopOk(nodes, n, pc)
       case Collect(n, pc) =>
         && !nodes[n].life.Live? && (nodes[n].link.Child? ==> nodes[n].link.key.Some?)
         && (if pc.DropLatch? then pc.i <= |nodes[n].shards| && AllStopped(nodes[n], pc.i) else AllStopped(nodes[n], |nodes[n].shards|))
         && (pc.Free? ==> !Listed(nodes, n))
       case Probe(n, _, pc) => !pc.Upgrade? ==> nodes[n].link.Root?
       case _ => true
  }

  // ---- Stacks ---------------------------------------------------------------------------------------

  ghost predicate Waiting(f: Frame) {
    (f.ArriveShard? && f.spc.Wait?) || (f.ArriveNode? && f.npc.NWait?)
  }

  ghost predicate Departing(f: Frame) {
    f.DepartShard? || f.FlushIfAlive? || f.Flush? || f.DepartNode? || f.NotifyZero? || f.Release?
  }

  /** A departure climbs: it goes on to its own node or to an ancestor, and departs from a shard only
      on behalf of a child of that shard. */
  ghost predicate Climbs(n: nat, f: Frame) {
    Departing(f) && f.n <= n && (f.DepartShard? ==> f.n < n)
  }

  /** `below` is the caller of `above`. */
  ghost predicate Calls(below: Frame, above: Frame) {
    match above
    case ArriveShard(n, s, unit, _) => unit == Kid && below.ArriveNode? && below.npc.NWait? && below.npc.p == n && below.npc.index == s
    case ArriveNode(n, _) => below.ArriveShard? && below.spc.Wait? && below.n == n
    case Stop(_, _) => below.Stop? || below.NewChild?
    case NewChild(_, _) => false
    case Collect(_, _) => false
    case Probe(_, _, _) => false
    case _ => !Waiting(below) && !Departing(below) && (below.Collect? ==> Climbs(below.n, above))
  }

  ghost predicate StartsCall(f: Frame) {
    !f.ArriveNode? && (f.ArriveShard? ==> f.unit == Local)
  }

  /** The node is alive, or it is the one that this stack collects. */
  ghost predicate Anchored(nodes: seq<Node>, bottom: Frame, m: nat) {
    m < |nodes| && (nodes[m].life.Live? || (nodes[m].life.Dropping? && bottom.Collect? && bottom.n == m))
  }

  ghost predicate StackOk(nodes: seq<Node>, stack: seq<Frame>) {
    && (forall k :: 0 <= k < |stack| ==> FrameOk(nodes, stack[k]))
    && (forall k :: 0 < k < |stack| ==> Calls(stack[k - 1], stack[k]))
    && (forall k, m :: 0 <= k < |stack| && m in Touches(stack[k]) ==> Anchored(nodes, stack[0], m))
    && (|stack| > 0 ==> StartsCall(stack[0]) && !Waiting(Last(stack)))
    && (|stack| > 0 && stack[0].Collect? ==> nodes[stack[0].n].life.Dropping?)
  }

  ghost predicate Stacks(nodes: seq<Node>, threads: seq<seq<Frame>>) {
    forall t :: 0 <= t < |threads| ==> StackOk(nodes, threads[t])
  }

  /** The stack belongs to a child's destructor that has yet to deregister the child. */
  predicate ToDeregister(nodes: seq<Node>, stack: seq<Frame>) {
    |stack| > 0 && stack[0].Collect? && !stack[0].dpc.Free? && IsChild(nodes, stack[0].n)
  }

  /** A child stays listed until its destructor deregisters it. */
  ghost predicate Departures(nodes: seq<Node>, threads: seq<seq<Frame>>) {
    forall t :: 0 <= t < |threads| && ToDeregister(nodes, threads[t]) ==> Listed(nodes, threads[t][0].n)
  }

  // ---- Obligations ----------------------------------------------------------------------------------

  ghost predicate NeedsFlush(nodes: seq<Node>, n: nat, s: nat) {
    ValidShard(nodes, n, s) && nodes[n].shards[s].word == FLUSHABLE && (nodes[n].life.Live? || nodes[n].link.Child?)
  }

  /** A shard that is stopped, arrived and empty is about to be flushed. */
  ghost predicate FlushesOwed(nodes: seq<Node>, held: multiset<Token>) {
    forall n: nat, s: nat :: NeedsFlush(nodes, n, s) ==> MustFlush(n, s) in held
  }

  ghost predicate NeedsRelease(nodes: seq<Node>, n: nat) {
    IsChild(nodes, n) && nodes[n].word.arrived && nodes[n].word.count == 0
  }

  /** A child that is arrived and empty is about to leave its parent shard, by an exchange that
      expects exactly its present word. */
  ghost predicate ReleasesOwed(nodes: seq<Node>, held: multiset<Token>) {
    forall n: nat :: NeedsRelease(nodes, n) ==> MustRelease(n, nodes[n].word) in held
  }

  ghost predicate NeedsLatch(nodes: seq<Node>, n: nat, s: nat) {
    ValidShard(nodes, n, s) && nodes[n].word.stopped && !nodes[n].shards[s].word.stopped
  }

  /** The shards of a stopped node are stopped, or about to be. */
  ghost predicate LatchesOwed(nodes: seq<Node>, held: multiset<Token>) {
    forall n: nat, s: nat :: NeedsLatch(nodes, n, s) ==> MustLatch(n) in held
  }

  ghost predicate SnapshotOwed(held: multiset<Token>, p: nat, s: nat) {
    exists i :: 0 <= i <= s && MustSnapshot(p, i) in held
  }

  ghost predicate NeedsStop(nodes: seq<Node>, c: nat) {
    && IsChild(nodes, c) && nodes[c].link.parent < |nodes| && nodes[c].life.Live?
    && !nodes[c].word.stopped && nodes[nodes[c].link.parent].word.stopped
  }

  /** A live child of a stopped node is stopped, or some call is about to find it or to stop it. */
  ghost predicate StopsOwed(nodes: seq<Node>, held: multiset<Token>) {
    forall c: nat :: NeedsStop(nodes, c) ==> MustStop(c) in held || SnapshotOwed(held, nodes[c].link.parent, nodes[c].link.shard)
  }

  ghost predicate NeedsKey(nodes: seq<Node>, c: nat) {
    IsChild(nodes, c) && nodes[c].link.key.None?
  }

  /** A child without a key is about to be registered, once. */
  ghost predicate RegistersOwed(nodes: seq<Node>, held: multiset<Token>) {
    forall c: nat :: held[MustRegister(c)] == One(NeedsKey(nodes, c))
  }

  ghost predicate NeedsCollect(nodes: seq<Node>, n: nat) {
    n < |nodes| && nodes[n].life.Dropping?
  }

  /** The destructor of a node runs once. */
  ghost predicate CollectsOwed(nodes: seq<Node>, held: multiset<Token>) {
    forall n: nat :: held[Collecting(n)] == One(NeedsCollect(nodes, n))
  }

  ghost predicate Duties(nodes: seq<Node>, held: multiset<Token>) {
    && FlushesOwed(nodes, held) && ReleasesOwed(nodes, held) && LatchesOwed(nodes, held)
    && StopsOwed(nodes, held) && RegistersOwed(nodes, held) && CollectsOwed(nodes, held)
  }

  // ---- Waiters --------------------------------------------------------------------------------------

  /** The event has happened. */
  ghost predicate Happened(nodes: seq<Node>, w: Waiter)
    requires ValidNode(nodes, w.node)
  {
    nodes[w.node].word.stopped && (w.event == ZeroEvent ==> nodes[w.node].word.count == 0)
  }

  /** The waiter has a listener that was not notified, and its check after making it failed. */
  ghost predicate Asleep(w: Waiter) {
    w.listener == Some(false) && (w.pc.Idle? || w.pc.ReadStop? || w.pc.ReadZero? || w.pc.PollListener?)
  }

  /** The notification that wakes the waiter. */
  function Wakes(w: Waiter): Token {
    if w.event == ZeroEvent then MustNotify(w.node) else MustSignal(w.node)
  }

  ghost predicate WaiterShape(nodes: seq<Node>, w: Waiter) {
    && ValidNode(nodes, w.node)
    && (w.pc.ReadZero? || w.pc.RecheckZero? ==> w.event == ZeroEvent && nodes[w.node].word.stopped)
    && (w.pc.RecheckStop? || w.pc.RecheckZero? || w.pc.PollListener? ==> w.listener.Some?)
    && (!w.pc.Gone? ==> nodes[w.node].life.Live?)
    && (w.listener == Some(true) ==> nodes[w.node].word.stopped)
  }

  /** A waiter that sleeps through its event is about to be woken. */
  ghost predicate WaiterOk(nodes: seq<Node>, held: multiset<Token>, w: Waiter) {
    WaiterShape(nodes, w) && (Asleep(w) && Happened(nodes, w) ==> Wakes(w) in held)
  }

  ghost predicate Waiters(nodes: seq<Node>, held: multiset<Token>, waiters: seq<Waiter>) {
    forall w :: 0 <= w < |waiters| ==> WaiterOk(nodes, held, waiters[w])
  }

  // ---- Lives ----------------------------------------------------------------------------------------

  /** A collected child counts nothing, and has left its parent. */
  ghost predicate Empty(node: Node) {
    && !node.word.arrived && node.word.home == 0 && node.word.count == 0
    && forall s :: 0 <= s < |node.shards| ==> node.shards[s].word == EMPTY_SHARD.(stopped := true)
  }

  ghost predicate Lives(nodes: seq<Node>, guards: multiset<Home>) {
    && (forall n: nat :: ValidNode(nodes, n) && nodes[n].handles > 0 ==> nodes[n].life.Live?)
    && (forall c: nat :: IsChild(nodes, c) && !nodes[c].life.Freed? ==> nodes[c].link.parent < |nodes| && nodes[nodes[c].link.parent].life.Live?)
    && (forall h :: h in guards ==> ValidShard(nodes, h.node, h.shard) && (nodes[h.node].link.Child? ==> nodes[h.node].life.Live?))
    && (forall c: nat :: IsChild(nodes, c) && nodes[c].life.Freed? ==> Empty(nodes[c]))
  }

  ghost predicate Inv(sys: Sys) {
    var held := ThreadTokens(sys.threads);
    && Words(sys.nodes)
    && Latches(sys.nodes)
    && Registries(sys.nodes)
    && Stacks(sys.nodes, sys.threads)
    && Departures(sys.nodes, sys.threads)
    && Balanced(sys.nodes, sys.guards, held)
    && Duties(sys.nodes, held)
    && Waiters(sys.nodes, held, sys.waiters)
    && Lives(sys.nodes, sys.guards)
  }

  // ---- How memory evolves ---------------------------------------------------------------------------

  ghost predicate ShardEvolves(a: ShardWord, b: ShardWord) {
    (a.stopped ==> b.stopped) && (a.arrived || a.stopped ==> b.arrived || b.stopped)
  }

  function LifeRank(life: Life): nat {
    match life case Live => 0 case Dropping => 1 case Freed => 2
  }

  ghost predicate LinkEvolves(a: Link, b: Link) {
    match a
    case Root => b.Root?
    case Child(p, s, key) => b.Child? && b.parent == p && b.shard == s && (key.Some? ==> b.key == key)
  }

  ghost predicate NodeEvolves(a: Node, b: Node) {
    && |a.shards| == |b.shards|
    && LinkEvolves(a.link, b.link)
    && (a.word.stopped ==> b.word.stopped)
    && LifeRank(a.life) <= LifeRank(b.life)
    && forall s :: 0 <= s < |a.shards| ==> ShardEvolves(a.shards[s].word, b.shards[s].word)
  }

  /** Stop bits never clear, an unstopped shard stays arrived, lives only end, links are fixed,
      and a child that has left its registry never comes back. */
  ghost predicate Evolves(nodes: seq<Node>, nodes': seq<Node>) {
    && |nodes| <= |nodes'|
    && (forall n: nat :: ValidNode(nodes, n) ==> NodeEvolves(nodes[n], nodes'[n]))
    && (forall c: nat :: IsChild(nodes, c) && nodes[c].link.key.Some? && !Listed(nodes, c) ==> !Listed(nodes', c))
  }

  /** What a frame knows stays true. */
  lemma FrameOkLasts(nodes: seq<Node>, nodes': seq<Node>, f: Frame)
    requires FrameOk(nodes, f) && Evolves(nodes, nodes')
    requires Forest(nodes) && Forest(nodes')
    ensures FrameOk(nodes', f)
  {
  }
}
