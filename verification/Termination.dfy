/** Every schedule of the calls in progress comes to an end, if no new call begins. The measure is
    taken node by node from the leaves up: a failed exchange on a word means that the word has changed
    since it was read, every change uses up a frame at that level, and frames only ever add work to
    levels nearer the root. */
module Termination {
  import opened Memory
  import opened Protocol
  import opened Bags
  import opened Ledger
  import opened Invariant
  import opened StackSteps
  import opened LifeSteps
  import opened Runs
  import opened Tallies

  // ---- The measure ----------------------------------------------------------------------------------------

  /** The parts of the measure. At each node: the changes pending on its shard words, the steps that
      their callers take between two changes, and the same for its own word. */
  datatype Slot = Allocs | Stopping | Rank(n: nat, level: nat)

  /** `y` outranks `x`. */
  predicate Outranks(y: Slot, x: Slot) {
    match x
    case Allocs => false
    case Stopping => y == Allocs
    case Rank(n, level) => !y.Rank? || y.n > n || (y.n == n && y.level < level)
  }

  function Minus0(a: nat, b: nat): nat {
    if a >= b then a - b else 0
  }

  function ShardCount(nodes: seq<Node>, n: nat): nat {
    if n < |nodes| then |nodes[n].shards| else 0
  }

  /** The steps that a frame of `stop`, of `new_child` or of a destructor still takes at its node. */
  function StopWeight(nodes: seq<Node>, f: Frame): nat {
    match f
    case Stop(n, Begin) => 1
    case Stop(n, Zero) => 1
    case Stop(n, Descend(work, _)) => 2 * |work| + 2
    case Stop(n, Snapshot(i, _, _)) => 2 * |nodes| + 3 + Minus0(ShardCount(nodes, n), i)
    case Stop(n, Notify(_)) => 2 * |nodes| + 4 + ShardCount(nodes, n)
    case Stop(n, Latch(i, _)) => 2 * |nodes| + 5 + ShardCount(nodes, n) + Minus0(ShardCount(nodes, n), i)
    case NewChild(_, Register(_)) => 4
    case NewChild(_, Check(_)) => 3
    case NewChild(_, Finish(_, _)) => 1
    case Collect(n, DropLatch(i)) => 3 + Minus0(ShardCount(nodes, n), i)
    case Collect(n, Deregister) => 2
    case Collect(n, Free) => 1
    case _ => 0
  }

  /** The changes of a shard word that a frame may still make. */
  function ShardChanges(f: Frame): nat {
    match f
    case ArriveShard(_, _, _, _) => 1
    case DepartShard(_, _, _, _) => 3
    case FlushIfAlive(_, _) => 2
    case Flush(_, _) => 1
    case Probe(_, _, pc) => if pc.Upgrade? then 2 else 3
    case _ => 0
  }

  /** The steps that an arrival takes until it succeeds, if the word does not change: three more if
      what it has seen is out of date. */
  function ShardSteps(nodes: seq<Node>, f: Frame): nat {
    match f
    case ArriveShard(n, s, _, Load) => 7
    case ArriveShard(n, s, _, Loop(seen)) => if ValidShard(nodes, n, s) && nodes[n].shards[s].word == seen then 3 else 6
    case ArriveShard(n, s, _, Wait(seen)) => if ValidShard(nodes, n, s) && nodes[n].shards[s].word == seen then 2 else 5
    case ArriveShard(n, s, _, Cas(seen)) => if ValidShard(nodes, n, s) && nodes[n].shards[s].word == seen then 1 else 4
    case Probe(n, s, PLoad) => 3
    case Probe(n, s, PLoop(seen)) => if ValidShard(nodes, n, s) && nodes[n].shards[s].word == seen then 1 else 2
    case _ => 0
  }

  function NodeChanges(f: Frame): nat {
    match f
    case ArriveNode(_, _) => 1
    case DepartNode(_, _) => 3
    case NotifyZero(_, _) => 2
    case Release(_, _) => 1
    case _ => 0
  }

  function NodeSteps(nodes: seq<Node>, f: Frame): nat {
    match f
    case ArriveNode(n, NLoad) => 7
    case ArriveNode(n, NLoop(seen)) => if n < |nodes| && nodes[n].word == seen then 3 else 6
    case ArriveNode(n, NWait(seen, _, _)) => if n < |nodes| && nodes[n].word == seen then 2 else 5
    case ArriveNode(n, NCas(seen, _, _)) => if n < |nodes| && nodes[n].word == seen then 1 else 4
    case _ => 0
  }

  function Weight(nodes: seq<Node>, x: Slot, f: Frame): nat {
    match x
    case Allocs => One(f.NewChild? && f.cpc.Alloc?)
    case Stopping => StopWeight(nodes, f)
    case Rank(n, level) =>
      if f.NewChild? || f.n != n then 0
      else if level == 0 then ShardChanges(f)
      else if level == 1 then ShardSteps(nodes, f)
      else if level == 2 then NodeChanges(f)
      else NodeSteps(nodes, f)
  }

  function Weigh(nodes: seq<Node>, x: Slot): Frame -> nat {
    f => Weight(nodes, x, f)
  }

  /** The total weight of a slot. */
  function Total(sys: Sys, x: Slot): nat {
    Tally(Weigh(sys.nodes, x), sys.threads)
  }

  function Unstopped(nodes: seq<Node>): nat {
    if nodes == [] then 0 else Unstopped(nodes[..|nodes| - 1]) + One(!nodes[|nodes| - 1].word.stopped)
  }

  /** The number of nodes whose destructor has not started. */
  function Alive(nodes: seq<Node>): nat {
    if nodes == [] then 0 else Alive(nodes[..|nodes| - 1]) + One(nodes[|nodes| - 1].life.Live?)
  }

  function Part(sys: Sys, i: nat): nat {
    Total(sys, Rank(Minus0(|sys.nodes|, i / 4 + 1), i % 4))
  }

  /** New nodes first, then destructors, then stops, then the nodes from the last to the first: children before parents. */
  function Measure(sys: Sys): seq<nat> {
    [Total(sys, Allocs), Alive(sys.nodes), Unstopped(sys.nodes), Total(sys, Stopping)] + seq(4 * |sys.nodes|, i requires 0 <= i => Part(sys, i))
  }

  // ---- One frame ------------------------------------------------------------------------------------------

  function Pushed(nodes: seq<Node>, x: Slot, push: seq<Frame>): nat
    requires |push| <= 2
  {
    if |push| == 0 then 0 else if |push| == 1 then Weight(nodes, x, push[0]) else Weight(nodes, x, push[0]) + Weight(nodes, x, push[1])
  }

  /** Other frames weigh no more than before. */
  ghost predicate OthersKeep(nodes: seq<Node>, nodes': seq<Node>, y: Slot) {
    forall g :: Weight(nodes', y, g) <= Weight(nodes, y, g)
  }

  /** The transition lowers the slot, and raises none that outranks it. */
  ghost predicate Lowers(nodes: seq<Node>, nodes': seq<Node>, f: Frame, push: seq<Frame>, x: Slot) {
    && |push| <= 2
    && forall y :: y == x || Outranks(y, x) ==> OthersKeep(nodes, nodes', y) && Pushed(nodes, y, push) + One(y == x) <= Weight(nodes, y, f)
  }

  /** Frames at other levels see no change of a shard word. */
  lemma ShardWordWeighs(nodes: seq<Node>, n: nat, s: nat, w: ShardWord, y: Slot)
    requires ValidShard(nodes, n, s) && y != Rank(n, 1)
    ensures OthersKeep(nodes, SetShard(nodes, n, s, w), y)
  {
  }

  lemma NodeWordWeighs(nodes: seq<Node>, n: nat, w: NodeWord, y: Slot)
    requires ValidNode(nodes, n) && (y.Rank? && y.n == n ==> y.level < 3)
    ensures OthersKeep(nodes, SetNode(nodes, n, w), y)
  {
  }

  lemma SameWeighs(nodes: seq<Node>, y: Slot)
    ensures OthersKeep(nodes, nodes, y)
  {
  }

  /** Without a change of memory, only the replaced frame counts. */
  lemma StillLowers(nodes: seq<Node>, f: Frame, push: seq<Frame>, x: Slot)
    requires |push| <= 2 && forall y :: y == x || Outranks(y, x) ==> Pushed(nodes, y, push) + One(y == x) <= Weight(nodes, y, f)
    ensures Lowers(nodes, nodes, f, push, x)
  {
    hide Weight, Pushed, OthersKeep;
    forall y ensures OthersKeep(nodes, nodes, y) { SameWeighs(nodes, y); }
  }

  /** A changed shard word counts only for the arrivals at that node. */
  lemma ShardLowers(nodes: seq<Node>, n: nat, s: nat, w: ShardWord, f: Frame, push: seq<Frame>, x: Slot)
    requires ValidShard(nodes, n, s) && (x == Stopping || x == Rank(n, 0))
    requires |push| <= 2 && forall y :: y == x || Outranks(y, x) ==> Pushed(nodes, y, push) + One(y == x) <= Weight(nodes, y, f)
    ensures Lowers(nodes, SetShard(nodes, n, s, w), f, push, x)
  {
    hide Weight, Pushed, OthersKeep, SetShard;
    forall y | y != Rank(n, 1) ensures OthersKeep(nodes, SetShard(nodes, n, s, w), y) { ShardWordWeighs(nodes, n, s, w, y); }
  }

  lemma NodeLowers(nodes: seq<Node>, n: nat, w: NodeWord, f: Frame, push: seq<Frame>, x: Slot)
    requires ValidNode(nodes, n) && x == Rank(n, 2)
    requires |push| <= 2 && forall y :: y == x || Outranks(y, x) ==> Pushed(nodes, y, push) + One(y == x) <= Weight(nodes, y, f)
    ensures Lowers(nodes, SetNode(nodes, n, w), f, push, x)
  {
    hide Weight, Pushed, OthersKeep, SetNode;
    forall y | y == x || Outranks(y, x) ensures OthersKeep(nodes, SetNode(nodes, n, w), y) { NodeWordWeighs(nodes, n, w, y); }
  }

  /** An arrival at a shard either succeeds, or takes a step towards that. */
  lemma ArriveShardLowers(sys: Sys, n: nat, s: nat, u: Unit, pc: ShardPc, ch: Choice)
    requires ValidShard(sys.nodes, n, s) && !pc.Wait? && !ch.spurious
    ensures var o := RunArriveShard(sys, n, s, u, pc, ch);
            Lowers(sys.nodes, o.nodes, ArriveShard(n, s, u, pc), o.push, Rank(n, if o.push == [] then 0 else 1))
  {
    hide Lowers, OthersKeep, SetShard;
    var f, o := ArriveShard(n, s, u, pc), RunArriveShard(sys, n, s, u, pc, ch);
    if o.push == [] {
      ShardLowers(sys.nodes, n, s, Plus(pc.seen.(arrived := true), u), f, o.push, Rank(n, 0));
    } else {
      StillLowers(sys.nodes, f, o.push, Rank(n, 1));
    }
  }

  lemma ArriveNodeLowers(sys: Sys, n: nat, pc: NodePc, ch: Choice)
    requires FrameOk(sys.nodes, ArriveNode(n, pc)) && Forest(sys.nodes) && !pc.NWait? && !ch.spurious
    ensures var o := RunArriveNode(sys, n, pc, ch);
            Lowers(sys.nodes, o.nodes, ArriveNode(n, pc), o.push, Rank(n, if o.arrived then 2 else 3))
  {
    hide Lowers, OthersKeep, SetNode, WordOk;
    var f, o := ArriveNode(n, pc), RunArriveNode(sys, n, pc, ch);
    if o.arrived {
      var word := sys.nodes[n].word;
      NodeLowers(sys.nodes, n, word.(count := word.count + 1), f, o.push, Rank(n, 2));
      if pc.NCas? { NodeLowers(sys.nodes, n, NodeWord(true, pc.nseen.stopped, pc.index, 1), f, o.push, Rank(n, 2)); }
    } else {
      StillLowers(sys.nodes, f, o.push, Rank(n, 3));
    }
  }

  lemma DepartShardLowers(sys: Sys, n: nat, s: nat, u: Unit, pinned: bool)
    requires ValidShard(sys.nodes, n, s)
    ensures var o := RunDepartShard(sys, n, s, u, pinned); Lowers(sys.nodes, o.nodes, DepartShard(n, s, u, pinned), o.push, Rank(n, 0))
  {
    hide Lowers, OthersKeep, SetShard;
    var f, o := DepartShard(n, s, u, pinned), RunDepartShard(sys, n, s, u, pinned);
    ShardLowers(sys.nodes, n, s, Minus(sys.nodes[n].shards[s].word, u), f, o.push, Rank(n, 0));
  }

  lemma FlushLowers(sys: Sys, n: nat, s: nat)
    requires ValidShard(sys.nodes, n, s)
    ensures Lowers(sys.nodes, RunFlush(sys, n, s).nodes, Flush(n, s), RunFlush(sys, n, s).push, Rank(n, 0))
  {
    hide Lowers, OthersKeep, SetShard;
    var o := RunFlush(sys, n, s);
    if o.push == [] {
      StillLowers(sys.nodes, Flush(n, s), o.push, Rank(n, 0));
    } else {
      ShardLowers(sys.nodes, n, s, FLUSHABLE.(arrived := false), Flush(n, s), o.push, Rank(n, 0));
    }
  }

  lemma DepartNodeLowers(sys: Sys, n: nat, s: nat)
    requires ValidNode(sys.nodes, n)
    ensures Lowers(sys.nodes, RunDepartNode(sys, n).nodes, DepartNode(n, s), RunDepartNode(sys, n).push, Rank(n, 2))
  {
    hide Lowers, OthersKeep, SetNode;
    var word := sys.nodes[n].word;
    NodeLowers(sys.nodes, n, word.(count := word.count - 1), DepartNode(n, s), RunDepartNode(sys, n).push, Rank(n, 2));
  }

  /** The frames that leave the memory alone. */
  lemma NotifyZeroLowers(sys: Sys, n: nat, left: NodeWord)
    requires ValidNode(sys.nodes, n)
    ensures Lowers(sys.nodes, RunNotifyZero(sys, n, left).nodes, NotifyZero(n, left), RunNotifyZero(sys, n, left).push, Rank(n, 2))
  {
    hide Lowers, OthersKeep, NotifyAll;
    StillLowers(sys.nodes, NotifyZero(n, left), RunNotifyZero(sys, n, left).push, Rank(n, 2));
  }

  lemma FlushIfAliveLowers(sys: Sys, n: nat, s: nat, push: seq<Frame>)
    requires push == [] || push == [Flush(n, s)]
    ensures Lowers(sys.nodes, sys.nodes, FlushIfAlive(n, s), push, Rank(n, 0))
  {
    hide Lowers, OthersKeep;
    StillLowers(sys.nodes, FlushIfAlive(n, s), push, Rank(n, 0));
  }

  lemma ReleaseLowers(sys: Sys, n: nat, left: NodeWord)
    requires IsChild(sys.nodes, n) && Forest(sys.nodes)
    ensures Lowers(sys.nodes, RunRelease(sys, n, left).nodes, Release(n, left), RunRelease(sys, n, left).push, Rank(n, 2))
  {
    hide Lowers, OthersKeep, SetNode;
    var o := RunRelease(sys, n, left);
    if o.push == [] {
      StillLowers(sys.nodes, Release(n, left), o.push, Rank(n, 2));
    } else {
      NodeLowers(sys.nodes, n, EMPTY_NODE.(stopped := left.stopped), Release(n, left), o.push, Rank(n, 2));
    }
  }

  lemma ProbeLowers(sys: Sys, n: nat, s: nat, pc: ProbePc, ch: Choice)
    requires ValidShard(sys.nodes, n, s) && !ch.spurious
    ensures var o := RunProbe(sys, n, s, pc, ch);
            Lowers(sys.nodes, o.nodes, Probe(n, s, pc), o.push, Rank(n, if |o.push| > 0 && o.push[0].Probe? && o.push[0].ppc.PLoop? then 1 else 0))
  {
    hide Lowers, OthersKeep, SetShard;
    var f, o := Probe(n, s, pc), RunProbe(sys, n, s, pc, ch);
    match pc
    case PLoad => StillLowers(sys.nodes, f, o.push, Rank(n, 1));
    case PLoop(seen) =>
      if !seen.arrived {
        StillLowers(sys.nodes, f, o.push, Rank(n, 0));
      } else if sys.nodes[n].shards[s].word == seen {
        ShardLowers(sys.nodes, n, s, Plus(seen, Local), f, o.push, Rank(n, 0));
      } else {
        StillLowers(sys.nodes, f, o.push, Rank(n, 1));
      }
    case Upgrade => StillLowers(sys.nodes, f, o.push, Rank(n, 0));
  }

  lemma WordsWeigh(nodes: seq<Node>, nodes': seq<Node>, y: Slot)
    requires |nodes'| == |nodes| && forall n :: 0 <= n < |nodes| ==> SameWords(nodes[n], nodes'[n])
    ensures OthersKeep(nodes, nodes', y)
  {
  }

  /** Frames that change no word. */
  lemma WordlessLowers(nodes: seq<Node>, nodes': seq<Node>, f: Frame, push: seq<Frame>, x: Slot)
    requires |nodes'| == |nodes| && forall n :: 0 <= n < |nodes| ==> SameWords(nodes[n], nodes'[n])
    requires |push| <= 2 && forall y :: y == x || Outranks(y, x) ==> Pushed(nodes, y, push) + One(y == x) <= Weight(nodes, y, f)
    ensures Lowers(nodes, nodes', f, push, x)
  {
    hide Weight, Pushed, OthersKeep, SameWords;
    forall y ensures OthersKeep(nodes, nodes', y) { WordsWeigh(nodes, nodes', y); }
  }

  lemma {:induction false} FewNodes(work: set<nat>, bound: nat)
    requires forall c :: c in work ==> c < bound
    ensures |work| <= bound
  {
    if bound > 0 {
      FewNodes(work - {bound - 1}, bound - 1);
    } else {
      assert work == {};
    }
  }

  lemma StopLatchLowers(sys: Sys, n: nat, i: nat, zero: bool, ch: Choice)
    requires ValidNode(sys.nodes, n) && i <= |sys.nodes[n].shards|
    ensures var o := RunStop(sys, n, Latch(i, zero), ch); Lowers(sys.nodes, o.nodes, Stop(n, Latch(i, zero)), o.push, Stopping)
  {
    hide Lowers, OthersKeep, SetShard;
    var f, o := Stop(n, Latch(i, zero)), RunStop(sys, n, Latch(i, zero), ch);
    if i < |sys.nodes[n].shards| {
      ShardLowers(sys.nodes, n, i, sys.nodes[n].shards[i].word.(stopped := true), f, o.push, Stopping);
    } else {
      StillLowers(sys.nodes, f, o.push, Stopping);
    }
  }

  lemma StopDescendLowers(sys: Sys, n: nat, work: set<nat>, zero: bool, ch: Choice)
    requires ValidNode(sys.nodes, n) && (work == {} || ch.index in work)
    ensures var o := RunStop(sys, n, Descend(work, zero), ch); Lowers(sys.nodes, o.nodes, Stop(n, Descend(work, zero)), o.push, Stopping)
  {
    hide Lowers, OthersKeep;
    StillLowers(sys.nodes, Stop(n, Descend(work, zero)), RunStop(sys, n, Descend(work, zero), ch).push, Stopping);
  }

  /** A stop takes a step towards its end, unless it is the first on its node. */
  lemma StopLowers(sys: Sys, n: nat, pc: StopPc, ch: Choice)
    requires FrameOk(sys.nodes, Stop(n, pc)) && Allowed(sys.nodes, Stop(n, pc), ch) && (pc.Begin? ==> sys.nodes[n].word.stopped)
    ensures var o := RunStop(sys, n, pc, ch); Lowers(sys.nodes, o.nodes, Stop(n, pc), o.push, Stopping)
  {
    hide Lowers, OthersKeep, SetShard, LiveChildren, NotifyAll, AllStopped;
    var f, o := Stop(n, pc), RunStop(sys, n, pc, ch);
    match pc
    case Latch(i, zero) => StopLatchLowers(sys, n, i, zero, ch);
    case Snapshot(i, work, _) =>
      FewNodes(work, |sys.nodes|);
      StillLowers(sys.nodes, f, o.push, Stopping);
    case Descend(work, zero) => StopDescendLowers(sys, n, work, zero, ch);
    case _ => StillLowers(sys.nodes, f, o.push, Stopping);
  }

  lemma NewChildLowers(sys: Sys, p: nat, pc: ChildPc, ch: Choice)
    requires Safe(sys.nodes, NewChild(p, pc)) && !pc.Alloc?
    ensures var o := RunNewChild(sys, p, pc, ch); Lowers(sys.nodes, o.nodes, NewChild(p, pc), o.push, Stopping)
  {
    hide Lowers, OthersKeep;
    WordlessLowers(sys.nodes, RunNewChild(sys, p, pc, ch).nodes, NewChild(p, pc), RunNewChild(sys, p, pc, ch).push, Stopping);
  }

  lemma CollectLowers(sys: Sys, n: nat, pc: DropPc)
    requires Safe(sys.nodes, Collect(n, pc))
    ensures var o := RunCollect(sys, n, pc); Lowers(sys.nodes, o.nodes, Collect(n, pc), o.push, Stopping)
  {
    hide Lowers, OthersKeep, SetShard;
    var f, o := Collect(n, pc), RunCollect(sys, n, pc);
    match pc
    case DropLatch(i) =>
      if i < |sys.nodes[n].shards| {
        ShardLowers(sys.nodes, n, i, sys.nodes[n].shards[i].word.(stopped := true), f, o.push, Stopping);
      } else {
        StillLowers(sys.nodes, f, o.push, Stopping);
      }
    case Deregister => WordlessLowers(sys.nodes, o.nodes, f, o.push, Stopping);
    case Free => WordlessLowers(sys.nodes, o.nodes, f, o.push, Stopping);
  }

  /** The transition of a frame that neither allocates a node nor stops one. */
  predicate Ordinary(nodes: seq<Node>, f: Frame)
    requires Safe(nodes, f)
  {
    !(f.NewChild? && f.cpc.Alloc?) && !(f.Stop? && f.stpc.Begin? && !nodes[f.n].word.stopped)
  }

  lemma RunLowers(sys: Sys, f: Frame, ch: Choice) returns (x: Slot)
    requires FrameOk(sys.nodes, f) && Safe(sys.nodes, f) && Allowed(sys.nodes, f, ch) && Forest(sys.nodes) && Ordinary(sys.nodes, f)
    requires !Waiting(f) && !ch.spurious
    ensures var o := Perform(sys, f, ch); Lowers(sys.nodes, o.nodes, f, o.push, x)
    ensures x == Stopping || (x.Rank? && !f.NewChild? && x.n == f.n && x.level < 4)
  {
    hide Lowers, Forest;
    hide RunArriveShard, RunArriveNode, RunDepartShard, RunFlush, RunDepartNode, RunNotifyZero, RunRelease, RunStop;
    hide RunNewChild, RunCollect, RunProbe;
    x := Stopping;
    match f
    case ArriveShard(n, s, u, pc) =>
      ArriveShardLowers(sys, n, s, u, pc, ch);
      x := Rank(n, if Perform(sys, f, ch).push == [] then 0 else 1);
    case ArriveNode(n, pc) =>
      ArriveNodeLowers(sys, n, pc, ch);
      x := Rank(n, if Perform(sys, f, ch).arrived then 2 else 3);
    case DepartShard(n, s, u, pinned) =>
      DepartShardLowers(sys, n, s, u, pinned);
      x := Rank(n, 0);
    case FlushIfAlive(n, s) =>
      FlushIfAliveLowers(sys, n, s, Perform(sys, f, ch).push);
      x := Rank(n, 0);
    case Flush(n, s) =>
      FlushLowers(sys, n, s);
      x := Rank(n, 0);
    case DepartNode(n, s) =>
      DepartNodeLowers(sys, n, s);
      x := Rank(n, 2);
    case NotifyZero(n, left) =>
      NotifyZeroLowers(sys, n, left);
      x := Rank(n, 2);
    case Release(n, left) =>
      ReleaseLowers(sys, n, left);
      x := Rank(n, 2);
    case Stop(n, pc) => StopLowers(sys, n, pc, ch);
    case NewChild(p, pc) => NewChildLowers(sys, p, pc, ch);
    case Collect(n, pc) => CollectLowers(sys, n, pc);
    case Probe(n, s, pc) =>
      ProbeLowers(sys, n, s, pc, ch);
      var push := Perform(sys, f, ch).push;
      x := Rank(n, if |push| > 0 && push[0].Probe? && push[0].ppc.PLoop? then 1 else 0);
  }

  // ---- All stacks -----------------------------------------------------------------------------------------

  /** A caller that goes on weighs no more. */
  lemma ResumeWeighs(nodes: seq<Node>, y: Slot, f: Frame)
    ensures Weight(nodes, y, Resume(f)) <= Weight(nodes, y, f)
  {
  }

  lemma FewTally(nodes: seq<Node>, y: Slot, push: seq<Frame>)
    requires |push| <= 2
    ensures StackTally(Weigh(nodes, y), push) == Pushed(nodes, y, push)
  {
    if |push| == 1 {
      assert push == [push[0]];
    } else if |push| == 2 {
      assert push[..1] == [push[0]];
    }
  }

  lemma PushedOne(nodes: seq<Node>, y: Slot, f: Frame)
    ensures Pushed(nodes, y, [f]) == Weight(nodes, y, f)
  {
  }

  lemma StackLowers(nodes: seq<Node>, y: Slot, stack: seq<Frame>, o: Outcome)
    requires |stack| > 0 && |o.push| <= 2
    ensures StackTally(Weigh(nodes, y), Below(Front(stack), o.arrived) + o.push) + Weight(nodes, y, Last(stack))
         <= StackTally(Weigh(nodes, y), stack) + Pushed(nodes, y, o.push)
  {
    hide Weight, Pushed;
    var w, base := Weigh(nodes, y), Front(stack);
    StackTallyAppend(w, Below(base, o.arrived), o.push);
    FewTally(nodes, y, o.push);
    if o.arrived && |base| > 0 {
      StackTallyAppend(w, Front(base), [Resume(Last(base))]);
      FewTally(nodes, y, [Resume(Last(base))]);
      PushedOne(nodes, y, Resume(Last(base)));
      ResumeWeighs(nodes, y, Last(base));
    }
  }

  /** A slot's total changes by at most what the frame's successors weigh more than the frame. */
  lemma TotalMoves(sys: Sys, t: nat, ch: Choice, y: Slot)
    requires Enabled(sys, Run(t, ch))
    requires var f, o := Last(sys.threads[t]), Perform(sys, Last(sys.threads[t]), ch); |o.push| <= 2 && OthersKeep(sys.nodes, o.nodes, y)
    ensures var f, o := Last(sys.threads[t]), Perform(sys, Last(sys.threads[t]), ch);
            Total(Advance(sys, t, ch), y) + Weight(sys.nodes, y, f) <= Total(sys, y) + Pushed(sys.nodes, y, o.push)
  {
    hide Weight, Pushed, Perform, Safe, Allowed, Below;
    var o, sys' := Perform(sys, Last(sys.threads[t]), ch), Advance(sys, t, ch);
    var w, w' := Weigh(sys.nodes, y), Weigh(o.nodes, y);
    TallyAtMost(w, w', sys'.threads);
    TallyUpdate(w, sys.threads, t, sys'.threads[t]);
    StackLowers(sys.nodes, y, sys.threads[t], o);
  }

  lemma TotalLowers(sys: Sys, t: nat, ch: Choice, x: Slot, y: Slot)
    requires Enabled(sys, Run(t, ch)) && (y == x || Outranks(y, x))
    requires var f, o := Last(sys.threads[t]), Perform(sys, Last(sys.threads[t]), ch); Lowers(sys.nodes, o.nodes, f, o.push, x)
    ensures Total(Advance(sys, t, ch), y) + One(y == x) <= Total(sys, y)
  {
    hide Weight, Pushed, Perform, Safe, Allowed, Advance;
    TotalMoves(sys, t, ch, y);
  }

  // ---- The whole measure ----------------------------------------------------------------------------------

  lemma {:induction false} FewerUnstopped(nodes: seq<Node>, nodes': seq<Node>, n: nat)
    requires |nodes'| == |nodes| && forall m :: 0 <= m < |nodes| && nodes[m].word.stopped ==> nodes'[m].word.stopped
    ensures Unstopped(nodes') + One(n < |nodes| && !nodes[n].word.stopped && nodes'[n].word.stopped) <= Unstopped(nodes)
  {
    if nodes != [] { FewerUnstopped(nodes[..|nodes| - 1], nodes'[..|nodes| - 1], n); }
  }

  lemma {:induction false} FewerAlive(nodes: seq<Node>, nodes': seq<Node>, n: nat)
    requires |nodes'| == |nodes| && forall m :: 0 <= m < |nodes| && nodes'[m].life.Live? ==> nodes[m].life.Live?
    ensures Alive(nodes') + One(n < |nodes| && nodes[n].life.Live? && !nodes'[n].life.Live?) <= Alive(nodes)
  {
    if nodes != [] { FewerAlive(nodes[..|nodes| - 1], nodes'[..|nodes| - 1], n); }
  }

  lemma OrdinaryLength(sys: Sys, f: Frame, ch: Choice)
    requires Safe(sys.nodes, f) && Allowed(sys.nodes, f, ch) && !(f.NewChild? && f.cpc.Alloc?)
    ensures |Perform(sys, f, ch).nodes| == |sys.nodes|
  {
    hide NotifyAll, LiveChildren;
  }

  /** A fall of one slot, with no rise above it, makes the measure smaller. */
  lemma SlotFalls(sys: Sys, sys': Sys, x: Slot)
    requires |sys'.nodes| == |sys.nodes| && Alive(sys'.nodes) <= Alive(sys.nodes) && Unstopped(sys'.nodes) <= Unstopped(sys.nodes)
    requires x == Stopping || (x.Rank? && x.n < |sys.nodes| && x.level < 4)
    requires forall y :: y == x || Outranks(y, x) ==> Total(sys', y) + One(y == x) <= Total(sys, y)
    ensures Smaller(Measure(sys'), Measure(sys))
  {
    hide Total, Alive, Unstopped;
    var a, b, size := Measure(sys'), Measure(sys), |sys.nodes|;
    assert Outranks(Allocs, x);
    if x == Stopping {
      FallsAt(a, b, 3);
    } else {
      var p := 4 * (size - 1 - x.n) + x.level;
      assert Outranks(Stopping, x);
      forall q | 0 <= q < 4 + p ensures a[q] <= b[q] {
        if q >= 4 {
          var y := Rank(Minus0(size, (q - 4) / 4 + 1), (q - 4) % 4);
          assert Outranks(y, x);
        }
      }
      assert x == Rank(Minus0(size, p / 4 + 1), p % 4);
      FallsAt(a, b, 4 + p);
    }
  }

  /** Stops and destructors are never undone. */
  lemma RunLasts(sys: Sys, action: Action)
    requires Inv(sys) && Enabled(sys, action)
    ensures var nodes, nodes' := sys.nodes, Apply(sys, action).nodes;
            && |nodes| <= |nodes'|
            && (forall m :: 0 <= m < |nodes| && nodes[m].word.stopped ==> nodes'[m].word.stopped)
            && (forall m :: 0 <= m < |nodes| && nodes'[m].life.Live? ==> nodes[m].life.Live?)
  {
    hide Inv, Enabled, Apply, Listed;
    InvStep(sys, action);
    var nodes, nodes' := sys.nodes, Apply(sys, action).nodes;
    forall m: nat | m < |nodes|
      ensures m < |nodes'| && (nodes[m].word.stopped ==> nodes'[m].word.stopped) && (nodes'[m].life.Live? ==> nodes[m].life.Live?)
    {
      assert NodeEvolves(nodes[m], nodes'[m]);
    }
  }

  lemma SlotInRange(sys: Sys, t: nat, ch: Choice) returns (x: Slot)
    requires Inv(sys) && Enabled(sys, Run(t, ch)) && !ch.spurious && Ordinary(sys.nodes, Last(sys.threads[t]))
    ensures x == Stopping || (x.Rank? && x.n < |sys.nodes| && x.level < 4)
    ensures var f, o := Last(sys.threads[t]), Perform(sys, Last(sys.threads[t]), ch); Lowers(sys.nodes, o.nodes, f, o.push, x)
  {
    hide Inv, Perform, Lowers, Allowed, Words, Latches, Registries, Balanced, Stacks, StackOk, FrameOk;
    hide CollectsOwed, Uses, Ordinary;
    TopFacts(sys, t);
    WordsForest(sys.nodes);
    SafeNode(sys.nodes, Last(sys.threads[t]));
    x := RunLowers(sys, Last(sys.threads[t]), ch);
  }

  lemma OrdinarySmaller(sys: Sys, t: nat, ch: Choice)
    requires Inv(sys) && Enabled(sys, Run(t, ch)) && !ch.spurious && Ordinary(sys.nodes, Last(sys.threads[t]))
    ensures Smaller(Measure(Advance(sys, t, ch)), Measure(sys)) && |Measure(Advance(sys, t, ch))| == |Measure(sys)|
  {
    hide Inv, Perform, Lowers, Safe, Allowed, Total, Alive, Unstopped;
    var sys' := Advance(sys, t, ch);
    var x := SlotInRange(sys, t, ch);
    OrdinaryLength(sys, Last(sys.threads[t]), ch);
    RunLasts(sys, Run(t, ch));
    FewerUnstopped(sys.nodes, sys'.nodes, 0);
    FewerAlive(sys.nodes, sys'.nodes, |sys.nodes|);
    forall y | y == x || Outranks(y, x) ensures Total(sys', y) + One(y == x) <= Total(sys, y) { TotalLowers(sys, t, ch, x, y); }
    SlotFalls(sys, sys', x);
  }

  lemma AllocsKeep(nodes: seq<Node>, nodes': seq<Node>)
    ensures OthersKeep(nodes, nodes', Allocs)
  {
  }

  lemma AllocWeighs(sys: Sys, f: Frame, ch: Choice)
    requires Safe(sys.nodes, f) && Allowed(sys.nodes, f, ch) && !Ordinary(sys.nodes, f)
    ensures var o := Perform(sys, f, ch);
            && |o.push| <= 2 && Pushed(sys.nodes, Allocs, o.push) == 0 && Weight(sys.nodes, Allocs, f) == One(f.NewChild?)
            && (f.Stop? ==> o.nodes == SetNode(sys.nodes, f.n, sys.nodes[f.n].word.(stopped := true)))
            && (f.NewChild? || f.Stop?)
  {
  }

  lemma StopsFirst(nodes: seq<Node>, f: Frame)
    requires Safe(nodes, f) && !Ordinary(nodes, f) && f.Stop?
    ensures f.n < |nodes| && !nodes[f.n].word.stopped
  {
  }

  /** The first stop of a node, and the allocation of one, make the measure smaller too. */
  lemma ExtraordinarySmaller(sys: Sys, t: nat, ch: Choice)
    requires Inv(sys) && Enabled(sys, Run(t, ch)) && !Ordinary(sys.nodes, Last(sys.threads[t]))
    ensures var a, b := Measure(Advance(sys, t, ch)), Measure(sys); Smaller(a, b) && (a[0] == b[0] ==> |a| == |b|)
  {
    hide Inv, Perform, Safe, Allowed, Total, Alive, Unstopped, Ordinary, Weight, Pushed, OthersKeep;
    var f, sys' := Last(sys.threads[t]), Advance(sys, t, ch);
    AllocWeighs(sys, f, ch);
    AllocsKeep(sys.nodes, sys'.nodes);
    TotalMoves(sys, t, ch, Allocs);
    if f.NewChild? {
      FallsAt(Measure(sys'), Measure(sys), 0);
    } else {
      StopsFirst(sys.nodes, f);
      RunLasts(sys, Run(t, ch));
      FewerUnstopped(sys.nodes, sys'.nodes, f.n);
      FewerAlive(sys.nodes, sys'.nodes, |sys.nodes|);
      FallsAt(Measure(sys'), Measure(sys), 2);
    }
  }

  lemma CollectAllocates(nodes: seq<Node>, n: nat)
    ensures StackTally(Weigh(nodes, Allocs), [Collect(n, DropLatch(0))]) == 0
  {
    FewTally(nodes, Allocs, [Collect(n, DropLatch(0))]);
  }

  /** A destructor that starts leaves one node fewer alive, and allocates nothing. */
  lemma CollectSmaller(sys: Sys, t: nat, n: nat)
    requires Inv(sys) && Enabled(sys, StartCollect(t, n))
    ensures var a, b := Measure(Apply(sys, StartCollect(t, n))), Measure(sys); Smaller(a, b) && |a| == |b|
  {
    hide Inv, Alive, Unstopped, Weight, Unpinned;
    var sys', w := Apply(sys, StartCollect(t, n)), Weigh(sys.nodes, Allocs);
    AllocsKeep(sys.nodes, sys'.nodes);
    assert OthersKeep(sys.nodes, sys'.nodes, Allocs);
    TallyAtMost(w, Weigh(sys'.nodes, Allocs), sys'.threads);
    TallyUpdate(w, sys.threads, t, [Collect(n, DropLatch(0))]);
    CollectAllocates(sys.nodes, n);
    RunLasts(sys, StartCollect(t, n));
    FewerAlive(sys.nodes, sys'.nodes, n);
    FallsAt(Measure(sys'), Measure(sys), 1);
  }

  // ---- Schedules ------------------------------------------------------------------------------------------

  /** A transition of a call in progress, without a spurious failure of a weak exchange. */
  ghost predicate Steps(sys: Sys, sys': Sys) {
    exists t: nat, ch :: Enabled(sys, Run(t, ch)) && !ch.spurious && sys' == Apply(sys, Run(t, ch))
  }

  /** The destructor of a node that nothing refers to any more starts. */
  ghost predicate Collects(sys: Sys, sys': Sys) {
    exists t: nat, n: nat :: Enabled(sys, StartCollect(t, n)) && sys' == Apply(sys, StartCollect(t, n))
  }

  /** What goes on without new calls: the calls in progress, and the destructors that they bring about. */
  ghost predicate Works(sys: Sys, sys': Sys) {
    Steps(sys, sys') || Collects(sys, sys')
  }

  lemma MeasureLength(sys: Sys)
    ensures |Measure(sys)| >= 4
  {
  }

  lemma StepSmaller(sys: Sys, t: nat, ch: Choice)
    requires Inv(sys) && Enabled(sys, Run(t, ch)) && !ch.spurious
    ensures var a, b := Measure(Apply(sys, Run(t, ch))), Measure(sys); Smaller(a, b) && (a[0] == b[0] ==> |a| == |b|)
  {
    hide Inv, Smaller, Measure, Perform;
    assert Apply(sys, Run(t, ch)) == Advance(sys, t, ch);
    MeasureLength(sys);
    MeasureLength(Advance(sys, t, ch));
    if Ordinary(sys.nodes, Last(sys.threads[t])) { OrdinarySmaller(sys, t, ch); } else { ExtraordinarySmaller(sys, t, ch); }
  }

  lemma WorkSmaller(sys: Sys, sys': Sys)
    requires Inv(sys) && Works(sys, sys')
    ensures Inv(sys')
    ensures Smaller(Measure(sys'), Measure(sys)) && (Measure(sys')[0] == Measure(sys)[0] ==> |Measure(sys')| == |Measure(sys)|)
  {
    hide Inv, Smaller, Measure, Enabled, Apply;
    if Steps(sys, sys') {
      var t: nat, ch :| Enabled(sys, Run(t, ch)) && !ch.spurious && sys' == Apply(sys, Run(t, ch));
      InvStep(sys, Run(t, ch));
      StepSmaller(sys, t, ch);
    } else {
      var t: nat, n: nat :| Enabled(sys, StartCollect(t, n)) && sys' == Apply(sys, StartCollect(t, n));
      InvStep(sys, StartCollect(t, n));
      CollectSmaller(sys, t, n);
    }
  }

  /** Work goes on until `done`. */
  ghost predicate WorksUntil(run: nat -> Sys, done: nat -> bool) {
    forall i: nat :: !done(i) ==> Works(run(i), run(i + 1))
  }

  lemma {:induction false} WorkInv(run: nat -> Sys, done: nat -> bool, i: nat)
    requires Reachable(run(0)) && WorksUntil(run, done) && forall j :: 0 <= j < i ==> !done(j)
    ensures Inv(run(i))
  {
    hide Reachable, Inv, Works;
    if i == 0 {
      ReachableInv(run(0));
    } else {
      WorkInv(run, done, i - 1);
      assert !done(i - 1);
      assert Works(run(i - 1), run(i - 1 + 1));
      WorkSmaller(run(i - 1), run(i));
    }
  }

  /** Work without new calls cannot go on for ever. */
  lemma WorkEnds(run: nat -> Sys, done: nat -> bool)
    requires Reachable(run(0)) && WorksUntil(run, done)
    ensures exists i :: done(i)
  {
    hide Reachable, Inv, Works, Measure, Smaller;
    var m := (i: nat) => Measure(run(i));
    if forall i :: !done(i) {
      forall i ensures |m(i)| > 0 { MeasureLength(run(i)); }
      forall i: nat | i >= 0 && !done(i) ensures Smaller(m(i + 1), m(i)) && (|m(i)| > 0 && m(i + 1)[0] == m(i)[0] ==> |m(i + 1)| == |m(i)|) {
        WorkInv(run, done, i);
        assert Works(run(i), run(i + 1));
        WorkSmaller(run(i), run(i + 1));
      }
      EveryDescentEnds(m, done, 0);
    }
  }

  /** A schedule: while there are calls in progress, one of them takes a step, or a destructor starts
      that they have brought about. */
  ghost predicate Schedule(run: nat -> Sys) {
    forall i: nat :: !Quiescent(run(i)) ==> Works(run(i), run(i + 1))
  }

  /** If no new call begins, every schedule reaches quiescence. */
  lemma EveryScheduleEnds(run: nat -> Sys)
    requires Reachable(run(0)) && Schedule(run)
    ensures exists i :: Quiescent(run(i))
  {
    hide Reachable, Works, Quiescent;
    var done := (i: nat) => Quiescent(run(i));
    assert WorksUntil(run, done);
    WorkEnds(run, done);
    var i :| done(i);
    assert Quiescent(run(i));
  }

  /** No call is in progress, and there is no node left whose destructor could start. */
  ghost predicate Settled(sys: Sys) {
    Quiescent(sys) && !exists t: nat, n: nat :: Enabled(sys, StartCollect(t, n))
  }

  /** The same, with every destructor run: a schedule that goes on for as long as it can reaches a state
      without calls in progress and without anything to collect. */
  lemma EveryScheduleSettles(run: nat -> Sys)
    requires Reachable(run(0)) && forall i: nat :: !Settled(run(i)) ==> Works(run(i), run(i + 1))
    ensures exists i :: Settled(run(i))
  {
    hide Reachable, Works, Settled;
    var done := (i: nat) => Settled(run(i));
    assert WorksUntil(run, done);
    WorkEnds(run, done);
    var i :| done(i);
    assert Settled(run(i));
  }

  // ---- Steps always exist ---------------------------------------------------------------------------------

  /** The frame can always take its step. */
  lemma FrameCanRun(nodes: seq<Node>, f: Frame) returns (ch: Choice)
    requires Forest(nodes) && FrameOk(nodes, f)
    ensures !ch.spurious && Allowed(nodes, f, ch)
  {
    ch := Choice(false, 0, 0);
    match f
    case Stop(n, Descend(work, _)) =>
      if c :| c in work { ch := ch.(index := c); }
    case NewChild(p, Register(c)) =>
      var key := AboveAll(nodes[p].shards[nodes[c].link.shard].children.Keys);
      ch := ch.(key := key);
    case _ =>
  }

  /** Nothing is ever stuck: every call in progress can take its next step. */
  lemma NeverStuck(sys: Sys, t: nat)
    requires Reachable(sys) && t < |sys.threads| && |sys.threads[t]| > 0
    ensures exists ch :: Enabled(sys, Run(t, ch)) && !ch.spurious
  {
    hide Reachable, Inv, Allowed, FrameOk, Safe, Uses, Words, Latches, Registries, Balanced, CollectsOwed, Stacks;
    hide StackOk;
    ReachableInv(sys);
    TopFacts(sys, t);
    WordsForest(sys.nodes);
    var ch := FrameCanRun(sys.nodes, Last(sys.threads[t]));
    assert Enabled(sys, Run(t, ch));
  }

  /** Short of a settled state there is always work that can be done next. */
  lemma WorkRemains(sys: Sys)
    requires Reachable(sys) && !Settled(sys)
    ensures exists sys' :: Works(sys, sys')
  {
    hide Reachable, Enabled, Apply;
    if Quiescent(sys) {
      var t: nat, n: nat :| Enabled(sys, StartCollect(t, n));
      assert Collects(sys, Apply(sys, StartCollect(t, n)));
      assert Works(sys, Apply(sys, StartCollect(t, n)));
    } else {
      var t: nat :| t < |sys.threads| && sys.threads[t] != [];
      NeverStuck(sys, t);
      var ch :| Enabled(sys, Run(t, ch)) && !ch.spurious;
      assert Steps(sys, Apply(sys, Run(t, ch)));
      assert Works(sys, Apply(sys, Run(t, ch)));
    }
  }
}
