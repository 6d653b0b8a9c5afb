/** The protocol as a transition system. Any number of threads run the calls of the library, each
    as a stack of frames; one transition is one atomic load, read-modify-write or lock section of
    one thread, so a run is any interleaving of any calls on any forest of nodes. */
module Protocol {
  import opened Memory

  /** Where a guard is counted. */
  datatype Home = Home(node: nat, shard: nat)

  /** Progress through `Shard::arrive`. `seen` is the local variable `state`. */
  datatype ShardPc =
    | Load
    | Loop(seen: ShardWord)
    | Wait(seen: ShardWord)
    | Cas(seen: ShardWord)

  /** Progress through `Inner::arrive`; `index` is the chosen shard of the parent `p`. */
  datatype NodePc =
    | NLoad
    | NLoop(nseen: NodeWord)
    | NWait(nseen: NodeWord, p: nat, index: nat)
    | NCas(nseen: NodeWord, p: nat, index: nat)

  /** Progress through `Inner::stop`. `zero` says that the node was empty when it stopped. */
  datatype StopPc =
    | Begin
    | Latch(i: nat, zero: bool)
    | Notify(zero: bool)
    | Snapshot(i: nat, work: set<nat>, zero: bool)
    | Descend(work: set<nat>, zero: bool)
    | Zero

  /** Progress through `Inner::new_child`. `late` says that the check found the parent stopped. */
  datatype ChildPc =
    | Alloc(shard: nat)
    | Register(child: nat)
    | Check(child: nat)
    | Finish(child: nat, late: bool)

  /** Progress through `Inner`'s destructor. */
  datatype DropPc = DropLatch(i: nat) | Deregister | Free

  /** Progress through `Guard::for_shard`. */
  datatype ProbePc = PLoad | PLoop(seen: ShardWord) | Upgrade

  datatype Frame =
    | ArriveShard(n: nat, s: nat, unit: Unit, spc: ShardPc)
    | ArriveNode(n: nat, npc: NodePc)
    /** `pinned` is false only in the destructor of a root's guard, which holds no node. */
    | DepartShard(n: nat, s: nat, unit: Unit, pinned: bool)
    | FlushIfAlive(n: nat, s: nat)
    | Flush(n: nat, s: nat)
    /** `s` is the shard that departed, or that another arrival made arrived. */
    | DepartNode(n: nat, s: nat)
    /** After the departure that left `left`, a node word with no arrived shards. */
    | NotifyZero(n: nat, left: NodeWord)
    | Release(n: nat, left: NodeWord)
    | Stop(n: nat, stpc: StopPc)
    | NewChild(parent: nat, cpc: ChildPc)
    | Collect(n: nat, dpc: DropPc)
    | Probe(n: nat, s: nat, ppc: ProbePc)

  /** The waiting half: `ShutdownCompletion` waits for `ZeroEvent`, `ShuttingDown` for
      `StopEvent`. `listener` is the stored listener, and whether it has been notified. */
  datatype Event = ZeroEvent | StopEvent

  datatype WaitPc = Idle | ReadStop | ReadZero | Listen | RecheckStop | RecheckZero | PollListener | Ready | Gone

  datatype Waiter = Waiter(node: nat, event: Event, listener: Option<bool>, pc: WaitPc)

  datatype Sys = Sys(
    nodes: seq<Node>,
    threads: seq<seq<Frame>>,
    guards: multiset<Home>,
    waiters: seq<Waiter>,
    /** The nodes that were asked to stop, by `shut_down` or by a root's last handle dropping. */
    requested: set<nat>)

  /** What a transition leaves open: whether a weak exchange fails spuriously, which shard or
      child is picked, and which vacant key a registry hands out. */
  datatype Choice = Choice(spurious: bool, index: nat, key: nat)

  /** The effect of a frame's transition: the new memory, the frames that replace it, and whether
      it returns an arrival to its caller. */
  datatype Outcome = Outcome(nodes: seq<Node>, push: seq<Frame>, arrived: bool, guards: multiset<Home>, waiters: seq<Waiter>)

  // ---- Shard::arrive, Shard::depart, Shard::flush -----------------------------------------------

  function Same(sys: Sys, push: seq<Frame>): Outcome {
    Outcome(sys.nodes, push, false, sys.guards, sys.waiters)
  }

  function Wrote(sys: Sys, nodes: seq<Node>, push: seq<Frame>): Outcome {
    Outcome(nodes, push, false, sys.guards, sys.waiters)
  }

  /** A counted guard exists from here on; a counted child returns to `Inner::arrive`. */
  function Arrived(sys: Sys, nodes: seq<Node>, n: nat, s: nat, unit: Unit): Outcome {
    Outcome(nodes, [], unit == Kid, if unit == Local then sys.guards + multiset{Home(n, s)} else sys.guards, sys.waiters)
  }

  function RunArriveShard(sys: Sys, n: nat, s: nat, unit: Unit, pc: ShardPc, ch: Choice): Outcome
    requires ValidShard(sys.nodes, n, s)
  {
    var word := sys.nodes[n].shards[s].word;
    match pc
    case Load => Same(sys, [ArriveShard(n, s, unit, Loop(word))])
    case Loop(seen) =>
      if !seen.arrived then
        Same(sys, [ArriveShard(n, s, unit, Wait(seen)), ArriveNode(n, NLoad)])
      else if word == seen && !ch.spurious then
        Arrived(sys, SetShard(sys.nodes, n, s, Plus(seen, unit)), n, s, unit)
      else
        Same(sys, [ArriveShard(n, s, unit, Loop(word))])
    case Wait(seen) => Same(sys, [ArriveShard(n, s, unit, pc)])
    case Cas(seen) =>
      if word == seen then
        Arrived(sys, SetShard(sys.nodes, n, s, Plus(seen.(arrived := true), unit)), n, s, unit)
      else
        Same(sys, [ArriveShard(n, s, unit, Loop(word)), DepartNode(n, s)])
  }

  function RunDepartShard(sys: Sys, n: nat, s: nat, unit: Unit, pinned: bool): Outcome
    requires ValidShard(sys.nodes, n, s)
  {
    var word := Minus(sys.nodes[n].shards[s].word, unit);
    Wrote(sys, SetShard(sys.nodes, n, s, word),
      if word != FLUSHABLE then [] else if pinned then [Flush(n, s)] else [FlushIfAlive(n, s)])
  }

  function RunFlush(sys: Sys, n: nat, s: nat): Outcome
    requires ValidShard(sys.nodes, n, s)
  {
    if sys.nodes[n].shards[s].word == FLUSHABLE then
      Wrote(sys, SetShard(sys.nodes, n, s, FLUSHABLE.(arrived := false)), [DepartNode(n, s)])
    else
      Same(sys, [])
  }

  // ---- Inner::arrive, Inner::depart ---------------------------------------------------------------

  function RunArriveNode(sys: Sys, n: nat, pc: NodePc, ch: Choice): Outcome
    requires ValidNode(sys.nodes, n)
  {
    var word := sys.nodes[n].word;
    var counted := SetNode(sys.nodes, n, word.(count := word.count + 1));
    match pc
    case NLoad =>
      if sys.nodes[n].link.Root? then Wrote(sys, counted, []).(arrived := true)
      else Same(sys, [ArriveNode(n, NLoop(word))])
    case NLoop(seen) =>
      if !seen.arrived && sys.nodes[n].link.Child? then
        var p := sys.nodes[n].link.parent;
        Same(sys, [ArriveNode(n, NWait(seen, p, ch.index)), ArriveShard(p, ch.index, Kid, Load)])
      else if word == seen && !ch.spurious then
        Wrote(sys, counted, []).(arrived := true)
      else
        Same(sys, [ArriveNode(n, NLoop(word))])
    case NWait(seen, p, index) => Same(sys, [ArriveNode(n, pc)])
    case NCas(seen, p, index) =>
      if word == seen then
        Wrote(sys, SetNode(sys.nodes, n, NodeWord(true, seen.stopped, index, 1)), []).(arrived := true)
      else
        Same(sys, [ArriveNode(n, NLoop(word)), DepartShard(p, index, Kid, true)])
  }

  function RunDepartNode(sys: Sys, n: nat): Outcome
    requires ValidNode(sys.nodes, n)
  {
    var word := sys.nodes[n].word.(count := sys.nodes[n].word.count - 1);
    Wrote(sys, SetNode(sys.nodes, n, word),
      if word.count != 0 then []
      else if word.stopped then [NotifyZero(n, word)]
      else if sys.nodes[n].link.Child? then [Release(n, word)]
      else [])
  }

  /** Notifies every listener of the event that exists now. */
  function NotifyAll(waiters: seq<Waiter>, n: nat, event: Event): (waiters': seq<Waiter>)
    ensures |waiters'| == |waiters|
  {
    seq(|waiters|, i requires 0 <= i < |waiters| =>
      if waiters[i].node == n && waiters[i].event == event && waiters[i].listener.Some?
      then waiters[i].(listener := Some(true)) else waiters[i])
  }

  function RunNotifyZero(sys: Sys, n: nat, left: NodeWord): Outcome
    requires ValidNode(sys.nodes, n)
  {
    Same(sys, if sys.nodes[n].link.Child? then [Release(n, left)] else []).(waiters := NotifyAll(sys.waiters, n, ZeroEvent))
  }

  function RunRelease(sys: Sys, n: nat, left: NodeWord): Outcome
    requires IsChild(sys.nodes, n)
  {
    if sys.nodes[n].word == left then
      Wrote(sys, SetNode(sys.nodes, n, EMPTY_NODE.(stopped := left.stopped)),
        [DepartShard(sys.nodes[n].link.parent, left.home, Kid, true)])
    else
      Same(sys, [])
  }

  // ---- Inner::stop and Inner's destructor ---------------------------------------------------------

  /** `Shard::stop`: latch the shard, and flush it if it is empty. */
  function RunLatch(sys: Sys, n: nat, i: nat, next: Frame): Outcome
    requires ValidShard(sys.nodes, n, i)
  {
    var word := sys.nodes[n].shards[i].word;
    Wrote(sys, SetShard(sys.nodes, n, i, word.(stopped := true)),
      if word.(stopped := true) == FLUSHABLE then [next, Flush(n, i)] else [next])
  }

  function RunStop(sys: Sys, n: nat, pc: StopPc, ch: Choice): Outcome
    requires ValidNode(sys.nodes, n)
  {
    var node := sys.nodes[n];
    match pc
    case Begin =>
      if node.word.stopped then Same(sys, [])
      else Wrote(sys, SetNode(sys.nodes, n, node.word.(stopped := true)), [Stop(n, Latch(0, node.word.count == 0))])
    case Latch(i, zero) =>
      if i < |node.shards| then RunLatch(sys, n, i, Stop(n, Latch(i + 1, zero)))
      else Same(sys, [Stop(n, Notify(zero))])
    case Notify(zero) =>
      Same(sys, [Stop(n, Snapshot(0, {}, zero))]).(waiters := NotifyAll(sys.waiters, n, StopEvent))
    case Snapshot(i, work, zero) =>
      if i < |node.shards| then Same(sys, [Stop(n, Snapshot(i + 1, work + LiveChildren(sys.nodes, n, i), zero))])
      else Same(sys, [Stop(n, Descend(work, zero))])
    case Descend(work, zero) =>
      if work != {} then Same(sys, [Stop(n, Descend(work - {ch.index}, zero)), Stop(ch.index, Begin)])
      else if zero then Same(sys, [Stop(n, Zero)])
      else Same(sys, [])
    case Zero => Same(sys, []).(waiters := NotifyAll(sys.waiters, n, ZeroEvent))
  }

  function RunCollect(sys: Sys, n: nat, pc: DropPc): Outcome
    requires ValidNode(sys.nodes, n)
    requires match sys.nodes[n].link case Child(p, s, _) => ValidShard(sys.nodes, p, s) case Root => true
  {
    match pc
    case DropLatch(i) =>
      if i < |sys.nodes[n].shards| then RunLatch(sys, n, i, Collect(n, DropLatch(i + 1)))
      else Same(sys, [Collect(n, Deregister)])
    case Deregister =>
      (match sys.nodes[n].link
       case Child(p, s, Some(key)) =>
         Wrote(sys, SetChildren(sys.nodes, p, s, sys.nodes[p].shards[s].children - {key}), [Collect(n, Free)])
       case _ => Same(sys, [Collect(n, Free)]))
    case Free => Wrote(sys, SetLife(sys.nodes, n, Freed), [])
  }

  // ---- Inner::new_child, Guard::for_shard ---------------------------------------------------------

  function NewNode(link: Link, shards: nat, handles: nat): Node {
    Node(EMPTY_NODE, seq(shards, i => Shard(EMPTY_SHARD, map[])), link, Live, handles)
  }

  /** The registration of child `c` under `key`. The child stores its key in the same transition:
      the key's only reader is the child's destructor, which cannot run before `new_child` returns. */
  function Registered(nodes: seq<Node>, p: nat, c: nat, key: nat): seq<Node>
    requires IsChild(nodes, c) && p != c && ValidShard(nodes, p, nodes[c].link.shard)
  {
    var s := nodes[c].link.shard;
    var keyed := nodes[c := nodes[c].(link := nodes[c].link.(key := Some(key)))];
    SetChildren(keyed, p, s, keyed[p].shards[s].children[key := c])
  }

  function RunNewChild(sys: Sys, parent: nat, pc: ChildPc, ch: Choice): Outcome
    requires ValidNode(sys.nodes, parent)
    requires pc.Register? ==> IsChild(sys.nodes, pc.child) && parent != pc.child && ValidShard(sys.nodes, parent, sys.nodes[pc.child].link.shard)
    requires pc.Finish? ==> ValidNode(sys.nodes, pc.child)
  {
    match pc
    case Alloc(s) =>
      Wrote(sys, sys.nodes + [NewNode(Child(parent, s, None), 1, 0)], [NewChild(parent, Register(|sys.nodes|))])
    case Register(c) =>
      Wrote(sys, Registered(sys.nodes, parent, c, ch.key), [NewChild(parent, Check(c))])
    case Check(c) =>
      if sys.nodes[parent].word.stopped then Same(sys, [NewChild(parent, Finish(c, true)), Stop(c, Begin)])
      else Same(sys, [NewChild(parent, Finish(c, false))])
    case Finish(c, _) => Wrote(sys, SetHandles(sys.nodes, c, sys.nodes[c].handles + 1), [])
  }

  function RunProbe(sys: Sys, n: nat, s: nat, pc: ProbePc, ch: Choice): Outcome
    requires ValidShard(sys.nodes, n, s)
  {
    var word := sys.nodes[n].shards[s].word;
    match pc
    case PLoad => Same(sys, [Probe(n, s, PLoop(word))])
    case PLoop(seen) =>
      if !seen.arrived then Same(sys, [Probe(n, s, Upgrade)])
      else if word == seen && !ch.spurious then
        Arrived(sys, SetShard(sys.nodes, n, s, Plus(seen, Local)), n, s, Local)
      else Same(sys, [Probe(n, s, PLoop(word))])
    case Upgrade =>
      if sys.nodes[n].life.Live? then Same(sys, [ArriveShard(n, ch.index, Local, Load)]) else Same(sys, [])
  }

  // ---- ShutdownCompletion and ShuttingDown ----------------------------------------------------------

  /** After a failed check: make a listener and check again, or wait on the one there is. */
  function AwaitEvent(w: Waiter): Waiter {
    w.(pc := if w.listener.Some? then PollListener else Listen)
  }

  function StepWaiter(nodes: seq<Node>, w: Waiter): Waiter
    requires ValidNode(nodes, w.node)
  {
    var stopped := nodes[w.node].word.stopped;
    var zero := nodes[w.node].word.count == 0;
    match w.pc
    case Idle => w.(pc := ReadStop)
    case ReadStop => if !stopped then AwaitEvent(w) else w.(pc := if w.event == ZeroEvent then ReadZero else Ready)
    case ReadZero => if zero then w.(pc := Ready) else AwaitEvent(w)
    case Listen => w.(listener := Some(false), pc := RecheckStop)
    case RecheckStop => w.(pc := if !stopped then PollListener else if w.event == ZeroEvent then RecheckZero else Ready)
    case RecheckZero => w.(pc := if zero then Ready else PollListener)
    case PollListener => if w.listener == Some(true) then w.(listener := None, pc := ReadStop) else w.(pc := Idle)
    case Ready => w
    case Gone => w
  }

  // ---- One transition -----------------------------------------------------------------------------

  /** The memory that the frame's transition accesses exists. */
  predicate Safe(nodes: seq<Node>, f: Frame) {
    match f
    case ArriveShard(n, s, _, _) => ValidShard(nodes, n, s)
    case ArriveNode(n, _) => ValidNode(nodes, n)
    case DepartShard(n, s, _, _) => ValidShard(nodes, n, s)
    case FlushIfAlive(n, s) => ValidShard(nodes, n, s)
    case Flush(n, s) => ValidShard(nodes, n, s)
    case DepartNode(n, s) => ValidShard(nodes, n, s)
    case NotifyZero(n, _) => ValidNode(nodes, n)
    case Release(n, _) => IsChild(nodes, n)
    case Stop(n, _) => ValidNode(nodes, n)
    case NewChild(p, pc) =>
      && ValidNode(nodes, p)
      && (if pc.Alloc? then ValidShard(nodes, p, pc.shard)
          else IsChild(nodes, pc.child) && nodes[pc.child].link.parent == p && p < pc.child && ValidShard(nodes, p, nodes[pc.child].link.shard))
    case Collect(n, _) =>
      ValidNode(nodes, n) && (nodes[n].link.Child? ==> ValidShard(nodes, nodes[n].link.parent, nodes[n].link.shard))
    case Probe(n, s, _) => ValidShard(nodes, n, s)
  }

  /** The choice is one that the frame's transition can make. */
  predicate Allowed(nodes: seq<Node>, f: Frame, ch: Choice)
    requires Safe(nodes, f)
  {
    match f
    case ArriveNode(n, NLoop(_)) => nodes[n].link.Child? ==> ValidShard(nodes, nodes[n].link.parent, ch.index)
    case Stop(n, Descend(work, _)) => work == {} || ch.index in work
    case NewChild(p, Register(c)) => ch.key !in nodes[p].shards[nodes[c].link.shard].children
    case Probe(n, _, Upgrade) => ValidShard(nodes, n, ch.index)
    case _ => true
  }

  function Perform(sys: Sys, f: Frame, ch: Choice): Outcome
    requires Safe(sys.nodes, f) && Allowed(sys.nodes, f, ch)
  {
    match f
    case ArriveShard(n, s, unit, pc) => RunArriveShard(sys, n, s, unit, pc, ch)
    case ArriveNode(n, pc) => RunArriveNode(sys, n, pc, ch)
    case DepartShard(n, s, unit, pinned) => RunDepartShard(sys, n, s, unit, pinned)
    case FlushIfAlive(n, s) => Same(sys, if sys.nodes[n].life.Live? then [Flush(n, s)] else [])
    case Flush(n, s) => RunFlush(sys, n, s)
    case DepartNode(n, _) => RunDepartNode(sys, n)
    case NotifyZero(n, left) => RunNotifyZero(sys, n, left)
    case Release(n, left) => RunRelease(sys, n, left)
    case Stop(n, pc) => RunStop(sys, n, pc, ch)
    case NewChild(p, pc) => RunNewChild(sys, p, pc, ch)
    case Collect(n, pc) => RunCollect(sys, n, pc)
    case Probe(n, s, pc) => RunProbe(sys, n, s, pc, ch)
  }

  /** The caller of a finished arrival goes on to its compare-exchange. */
  function Resume(f: Frame): Frame {
    match f
    case ArriveShard(n, s, unit, Wait(seen)) => ArriveShard(n, s, unit, Cas(seen))
    case ArriveNode(n, NWait(seen, p, index)) => ArriveNode(n, NCas(seen, p, index))
    case _ => f
  }

  function Front<T>(s: seq<T>): seq<T>
    requires |s| > 0
  {
    s[..|s| - 1]
  }

  function Last<T>(s: seq<T>): T
    requires |s| > 0
  {
    s[|s| - 1]
  }

  /** The stack below a frame once that frame has been replaced. */
  function Below(base: seq<Frame>, arrived: bool): seq<Frame> {
    if arrived && |base| > 0 then Front(base) + [Resume(Last(base))] else base
  }

  /** What can happen next. A call begins on a thread with an empty stack. */
  datatype Action =
    | Run(t: nat, ch: Choice)
    | StartRoot(shards: nat)
    | StartGuard(t: nat, n: nat, s: nat)
    | StartProbe(t: nat, n: nat, s: nat)
    | StartStop(t: nat, n: nat)
    | StartChild(t: nat, n: nat, s: nat)
    | StartCollect(t: nat, n: nat)
    | CloneHandle(n: nat)
    | DropHandle(t: nat, n: nat)
    | CloneGuard(home: Home)
    | DropGuard(t: nat, home: Home)
    | StartWait(n: nat, event: Event)
    | RunWaiter(w: nat)
    | DropWaiter(w: nat)

  predicate IdleThread(sys: Sys, t: nat) {
    t < |sys.threads| && sys.threads[t] == []
  }

  /** A user holds a handle to the node. */
  predicate Held(sys: Sys, n: nat) {
    ValidNode(sys.nodes, n) && sys.nodes[n].handles > 0
  }

  /** The nodes whose reference count a frame's call raises, or borrows from: the node it works on
      and, once it has used it, its parent. A guard of a root holds none. */
  function Touches(f: Frame): set<nat> {
    match f
    case ArriveShard(n, _, _, _) => {n}
    case ArriveNode(n, pc) => if pc.NWait? || pc.NCas? then {n, pc.p} else {n}
    case DepartShard(n, _, _, pinned) => if pinned then {n} else {}
    case FlushIfAlive(_, _) => {}
    case Flush(n, _) => {n}
    case DepartNode(n, _) => {n}
    case NotifyZero(n, _) => {n}
    case Release(n, _) => {n}
    case Stop(n, pc) => if pc.Snapshot? || pc.Descend? then {n} + pc.work else {n}
    case NewChild(p, pc) => if pc.Alloc? then {p} else {p, pc.child}
    case Collect(_, _) => {}
    case Probe(_, _, _) => {}
  }

  /** Nothing refers to the node: no handle, child, waiter, guard (of a child) or call. */
  predicate Unpinned(sys: Sys, n: nat)
    requires ValidNode(sys.nodes, n)
  {
    && sys.nodes[n].handles == 0
    && (forall c :: 0 <= c < |sys.nodes| && sys.nodes[c].link.Child? && sys.nodes[c].link.parent == n ==> sys.nodes[c].life.Freed?)
    && (forall w :: 0 <= w < |sys.waiters| && sys.waiters[w].node == n ==> sys.waiters[w].pc.Gone?)
    && (sys.nodes[n].link.Child? ==> forall h :: h in sys.guards ==> h.node != n)
    && (forall t, k :: 0 <= t < |sys.threads| && 0 <= k < |sys.threads[t]| ==> n !in Touches(sys.threads[t][k]))
  }

  predicate Enabled(sys: Sys, action: Action) {
    match action
    case Run(t, ch) =>
      && t < |sys.threads| && |sys.threads[t]| > 0
      && Safe(sys.nodes, Last(sys.threads[t])) && Allowed(sys.nodes, Last(sys.threads[t]), ch)
    case StartRoot(shards) => shards > 0
    case StartGuard(t, n, s) => IdleThread(sys, t) && Held(sys, n) && ValidShard(sys.nodes, n, s)
    case StartProbe(t, n, s) => IdleThread(sys, t) && ValidShard(sys.nodes, n, s)
    case StartStop(t, n) => IdleThread(sys, t) && Held(sys, n)
    case StartChild(t, n, s) => IdleThread(sys, t) && Held(sys, n) && ValidShard(sys.nodes, n, s)
    case StartCollect(t, n) => IdleThread(sys, t) && ValidNode(sys.nodes, n) && sys.nodes[n].life.Live? && Unpinned(sys, n)
    case CloneHandle(n) => Held(sys, n)
    case DropHandle(t, n) => IdleThread(sys, t) && Held(sys, n)
    case CloneGuard(home) => home in sys.guards && ValidShard(sys.nodes, home.node, home.shard)
    case DropGuard(t, home) => IdleThread(sys, t) && home in sys.guards && ValidShard(sys.nodes, home.node, home.shard)
    case StartWait(n, _) => Held(sys, n)
    case RunWaiter(w) => w < |sys.waiters| && ValidNode(sys.nodes, sys.waiters[w].node)
    case DropWaiter(w) => w < |sys.waiters| && (sys.waiters[w].pc.Idle? || sys.waiters[w].pc.Ready?)
  }

  function Spawn(sys: Sys, t: nat, f: Frame): Sys
    requires t < |sys.threads|
  {
    sys.(threads := sys.threads[t := [f]])
  }

  function Advance(sys: Sys, t: nat, ch: Choice): Sys
    requires Enabled(sys, Run(t, ch))
  {
    var stack := sys.threads[t];
    var o := Perform(sys, Last(stack), ch);
    sys.(nodes := o.nodes, guards := o.guards, waiters := o.waiters,
         threads := sys.threads[t := Below(Front(stack), o.arrived) + o.push])
  }

  function Apply(sys: Sys, action: Action): Sys
    requires Enabled(sys, action)
  {
    match action
    case Run(t, ch) => Advance(sys, t, ch)
    case StartRoot(shards) => sys.(nodes := sys.nodes + [NewNode(Root, shards, 1)])
    case StartGuard(t, n, s) => Spawn(sys, t, ArriveShard(n, s, Local, Load))
    case StartProbe(t, n, s) => Spawn(sys, t, Probe(n, s, if sys.nodes[n].link.Root? then PLoad else Upgrade))
    case StartStop(t, n) => Spawn(sys, t, Stop(n, Begin)).(requested := sys.requested + {n})
    case StartChild(t, n, s) => Spawn(sys, t, NewChild(n, Alloc(s)))
    case StartCollect(t, n) => Spawn(sys, t, Collect(n, DropLatch(0))).(nodes := SetLife(sys.nodes, n, Dropping))
    case CloneHandle(n) => sys.(nodes := SetHandles(sys.nodes, n, sys.nodes[n].handles + 1))
    case DropHandle(t, n) =>
      var dropped := sys.(nodes := SetHandles(sys.nodes, n, sys.nodes[n].handles - 1));
      if sys.nodes[n].handles == 1 && sys.nodes[n].link.Root?
      then Spawn(dropped, t, Stop(n, Begin)).(requested := sys.requested + {n})
      else dropped
    case CloneGuard(home) =>
      var word := sys.nodes[home.node].shards[home.shard].word;
      sys.(nodes := SetShard(sys.nodes, home.node, home.shard, Plus(word, Local)), guards := sys.guards + multiset{home})
    case DropGuard(t, home) =>
      Spawn(sys, t, DepartShard(home.node, home.shard, Local, sys.nodes[home.node].link.Child?)).(guards := sys.guards - multiset{home})
    case StartWait(n, event) => sys.(waiters := sys.waiters + [Waiter(n, event, None, Idle)])
    case RunWaiter(w) => sys.(waiters := sys.waiters[w := StepWaiter(sys.nodes, sys.waiters[w])])
    case DropWaiter(w) => sys.(waiters := sys.waiters[w := sys.waiters[w].(pc := Gone, listener := None)])
  }

  /** No call is in progress. */
  predicate Quiescent(sys: Sys) {
    forall t :: 0 <= t < |sys.threads| ==> sys.threads[t] == []
  }

  predicate Init(sys: Sys) {
    sys.nodes == [] && sys.guards == multiset{} && sys.waiters == [] && sys.requested == {} && Quiescent(sys)
  }

  ghost predicate Next(sys: Sys, sys': Sys) {
    exists action :: Enabled(sys, action) && sys' == Apply(sys, action)
  }

  /** A run: every state follows from the one before by an enabled transition. */
  ghost predicate IsRun(run: seq<Sys>) {
    && |run| > 0 && Init(run[0])
    && forall i :: 0 <= i < |run| - 1 ==> Next(run[i], run[i + 1])
  }

  ghost predicate Reachable(sys: Sys) {
    exists run :: IsRun(run) && Last(run) == sys
  }
}
