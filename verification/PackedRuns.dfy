/** The protocol on packed words: while every counter stays in its field's range, the `u64` words and the
    records of the protocol take the same steps. */
module PackedRuns {
  import opened Memory
  import opened Protocol
  import opened Ledger
  import opened Invariant
  import opened MemorySteps
  import opened Runs
  import opened PackedWords
  import opened PackedRecords
  import opened Numerals

  // ---- Memory of words ----------------------------------------------------------------------------------------

  datatype PackedNode = PackedNode(word: bv64, shards: seq<bv64>)

  ghost predicate NodePacks(p: PackedNode, node: Node) {
    && NodeWordOk(p.word) && NodeRecord(p.word) == node.word && |p.shards| == |node.shards|
    && forall s :: 0 <= s < |p.shards| ==> ShardRecord(p.shards[s]) == node.shards[s].word
  }

  /** Every packed word stands for the protocol's record. */
  ghost predicate Packs(ps: seq<PackedNode>, nodes: seq<Node>) {
    |ps| == |nodes| && forall n :: 0 <= n < |ps| ==> NodePacks(ps[n], nodes[n])
  }

  /** Every counter is in the range of its field, and every shard index in that of a home. */
  ghost predicate InRange(nodes: seq<Node>) {
    && (forall n: nat, s: nat :: ValidShard(nodes, n, s) ==> ShardInRange(nodes[n].shards[s].word))
    && (forall n: nat :: n < |nodes| ==> nodes[n].word.count < LIMIT && |nodes[n].shards| <= HOME_LIMIT)
  }

  function PutShard(ps: seq<PackedNode>, n: nat, s: nat, w: bv64): seq<PackedNode>
    requires n < |ps| && s < |ps[n].shards|
  {
    ps[n := ps[n].(shards := ps[n].shards[s := w])]
  }

  function PutNode(ps: seq<PackedNode>, n: nat, w: bv64): seq<PackedNode>
    requires n < |ps|
  {
    ps[n := ps[n].(word := w)]
  }

  function PackedNew(shards: nat): PackedNode {
    PackedNode(0, seq(shards, i => 0))
  }

  /** The bits that a call holds in its local variable `state` are those it loaded. */
  ghost predicate Holds(f: Frame, state: bv64) {
    match f
    case ArriveShard(_, _, _, pc) => !pc.Load? ==> ShardRecord(state) == pc.seen
    case ArriveNode(_, pc) => !pc.NLoad? ==> NodeWordOk(state) && NodeRecord(state) == pc.nseen
    case NotifyZero(_, left) => NodeWordOk(state) && NodeRecord(state) == left
    case Release(_, left) => NodeWordOk(state) && NodeRecord(state) == left
    case Probe(_, _, PLoop(seen)) => ShardRecord(state) == seen
    case _ => true
  }

  /** What a frame's transition does to the packed words. It compares words with the bits that its call
      holds, and reads no records. */
  function PackedArriveShard(ps: seq<PackedNode>, n: nat, s: nat, u: Unit, pc: ShardPc, ch: Choice, state: bv64): seq<PackedNode>
    requires n < |ps| && s < |ps[n].shards|
  {
    match pc
    case Loop(_) => if HasArrived(state) && ps[n].shards[s] == state && !ch.spurious then PutShard(ps, n, s, AddUnit(state, u)) else ps
    case Cas(_) => if ps[n].shards[s] == state then PutShard(ps, n, s, FirstUnit(state, u)) else ps
    case _ => ps
  }

  function PackedArriveNode(ps: seq<PackedNode>, n: nat, root: bool, pc: NodePc, ch: Choice, state: bv64): seq<PackedNode>
    requires n < |ps|
  {
    match pc
    case NLoad => if root then PutNode(ps, n, AddShard(ps[n].word)) else ps
    case NLoop(_) => if (root || HasArrived(state)) && ps[n].word == state && !ch.spurious then PutNode(ps, n, AddShard(state)) else ps
    case NCas(_, _, index) => if ps[n].word == state then PutNode(ps, n, ArrivedAt(state, Numeral(index))) else ps
    case _ => ps
  }

  function PackedFlush(ps: seq<PackedNode>, n: nat, s: nat): seq<PackedNode>
    requires n < |ps| && s < |ps[n].shards|
  {
    if ps[n].shards[s] == FLUSHABLE_BITS then PutShard(ps, n, s, STOPPED) else ps
  }

  function PackedRelease(ps: seq<PackedNode>, n: nat, state: bv64): seq<PackedNode>
    requires n < |ps|
  {
    if ps[n].word == state then PutNode(ps, n, Released(state)) else ps
  }

  function PackedLatch(ps: seq<PackedNode>, n: nat, i: nat): seq<PackedNode>
    requires n < |ps|
  {
    if i < |ps[n].shards| then PutShard(ps, n, i, LatchBits(ps[n].shards[i])) else ps
  }

  function PackedStop(ps: seq<PackedNode>, n: nat, pc: StopPc): seq<PackedNode>
    requires n < |ps|
  {
    match pc
    case Begin => PutNode(ps, n, LatchBits(ps[n].word))
    case Latch(i, _) => PackedLatch(ps, n, i)
    case _ => ps
  }

  function PackedCollect(ps: seq<PackedNode>, n: nat, pc: DropPc): seq<PackedNode>
    requires n < |ps|
  {
    if pc.DropLatch? then PackedLatch(ps, n, pc.i) else ps
  }

  function PackedProbe(ps: seq<PackedNode>, n: nat, s: nat, pc: ProbePc, ch: Choice, state: bv64): seq<PackedNode>
    requires n < |ps| && s < |ps[n].shards|
  {
    if pc.PLoop? && HasArrived(state) && ps[n].shards[s] == state && !ch.spurious then PutShard(ps, n, s, AddUnit(state, Local)) else ps
  }

  /** There is a word for every node and every shard. */
  ghost predicate Shaped(ps: seq<PackedNode>, nodes: seq<Node>) {
    |ps| == |nodes| && forall n :: 0 <= n < |ps| ==> |ps[n].shards| == |nodes[n].shards|
  }

  function PackedPerform(ps: seq<PackedNode>, nodes: seq<Node>, f: Frame, ch: Choice, state: bv64): seq<PackedNode>
    requires Safe(nodes, f) && Shaped(ps, nodes)
  {
    match f
    case ArriveShard(n, s, u, pc) => PackedArriveShard(ps, n, s, u, pc, ch, state)
    case ArriveNode(n, pc) => PackedArriveNode(ps, n, nodes[n].link.Root?, pc, ch, state)
    case DepartShard(n, s, u, _) => PutShard(ps, n, s, SubtractUnit(ps[n].shards[s], u))
    case Flush(n, s) => PackedFlush(ps, n, s)
    case DepartNode(n, _) => PutNode(ps, n, SubtractShard(ps[n].word))
    case Release(n, _) => PackedRelease(ps, n, state)
    case Stop(n, pc) => PackedStop(ps, n, pc)
    case NewChild(_, Alloc(_)) => ps + [PackedNew(1)]
    case Collect(n, pc) => PackedCollect(ps, n, pc)
    case Probe(n, s, pc) => PackedProbe(ps, n, s, pc, ch, state)
    case _ => ps
  }

  // ---- One transition -----------------------------------------------------------------------------------------

  lemma PutShardPacks(ps: seq<PackedNode>, nodes: seq<Node>, n: nat, s: nat, w: bv64)
    requires Packs(ps, nodes) && ValidShard(nodes, n, s)
    ensures Packs(PutShard(ps, n, s, w), SetShard(nodes, n, s, ShardRecord(w)))
  {
    hide ShardRecord, NodeRecord, NodeWordOk;
    assert NodePacks(ps[n], nodes[n]);
  }

  lemma PutNodePacks(ps: seq<PackedNode>, nodes: seq<Node>, n: nat, w: bv64)
    requires Packs(ps, nodes) && n < |nodes| && NodeWordOk(w)
    ensures Packs(PutNode(ps, n, w), SetNode(nodes, n, NodeRecord(w)))
  {
    hide ShardRecord, NodeRecord, NodeWordOk;
    assert NodePacks(ps[n], nodes[n]);
  }

  ghost predicate WordsKept(nodes: seq<Node>, nodes': seq<Node>) {
    |nodes'| == |nodes| && forall n :: 0 <= n < |nodes| ==> SameWords(nodes[n], nodes'[n])
  }

  lemma SameWordsPack(ps: seq<PackedNode>, nodes: seq<Node>, nodes': seq<Node>)
    requires Packs(ps, nodes) && WordsKept(nodes, nodes')
    ensures Packs(ps, nodes')
  {
    hide ShardRecord, NodeRecord, NodeWordOk;
  }

  lemma PacksShaped(ps: seq<PackedNode>, nodes: seq<Node>)
    requires Packs(ps, nodes)
    ensures Shaped(ps, nodes)
  {
    hide ShardRecord, NodeRecord, NodeWordOk;
  }

  lemma ShardPacked(ps: seq<PackedNode>, nodes: seq<Node>, n: nat, s: nat)
    requires Packs(ps, nodes) && ValidShard(nodes, n, s)
    ensures n < |ps| && s < |ps[n].shards| && ShardRecord(ps[n].shards[s]) == nodes[n].shards[s].word
  {
    hide ShardRecord, NodeRecord, NodeWordOk;
    assert NodePacks(ps[n], nodes[n]);
  }

  lemma NodePacked(ps: seq<PackedNode>, nodes: seq<Node>, n: nat)
    requires Packs(ps, nodes) && n < |nodes|
    ensures n < |ps| && NodeWordOk(ps[n].word) && NodeRecord(ps[n].word) == nodes[n].word
  {
    hide ShardRecord, NodeRecord, NodeWordOk;
    assert NodePacks(ps[n], nodes[n]);
  }

  lemma NewNodePacks(ps: seq<PackedNode>, nodes: seq<Node>, link: Link, shards: nat, handles: nat)
    requires Packs(ps, nodes)
    ensures Packs(ps + [PackedNew(shards)], nodes + [NewNode(link, shards, handles)])
  {
    hide ShardRecord, NodeRecord, NodeWordOk;
    EmptyRecords();
    assert NodePacks(PackedNew(shards), NewNode(link, shards, handles));
  }

  lemma RangeShard(nodes: seq<Node>, n: nat, s: nat, w: ShardWord)
    requires ValidShard(nodes, n, s) && InRange(SetShard(nodes, n, s, w))
    ensures ShardInRange(w)
  {
    assert ValidShard(SetShard(nodes, n, s, w), n, s);
  }

  lemma RangeNode(nodes: seq<Node>, n: nat, w: NodeWord)
    requires n < |nodes| && InRange(SetNode(nodes, n, w))
    ensures w.count < LIMIT
  {
    assert SetNode(nodes, n, w)[n].word == w;
  }

  lemma RangeIndex(nodes: seq<Node>, p: nat, index: nat)
    requires InRange(nodes) && ValidShard(nodes, p, index)
    ensures index < HOME_LIMIT
  {
  }

  lemma ArriveShardPacks(sys: Sys, ps: seq<PackedNode>, n: nat, s: nat, u: Unit, pc: ShardPc, ch: Choice, state: bv64)
    requires Packs(ps, sys.nodes) && FrameOk(sys.nodes, ArriveShard(n, s, u, pc)) && Holds(ArriveShard(n, s, u, pc), state)
    requires InRange(RunArriveShard(sys, n, s, u, pc, ch).nodes) && n < |ps| && s < |ps[n].shards|
    ensures Packs(PackedArriveShard(ps, n, s, u, pc, ch, state), RunArriveShard(sys, n, s, u, pc, ch).nodes)
  {
    hide Packs, InRange, ShardRecord, NodeRecord, NodeWordOk, HasArrived, AddUnit, FirstUnit, PutShard, SetShard, ShardInRange;
    ShardPacked(ps, sys.nodes, n, s);
    RecordsCompare(ps[n].shards[s], state);
    ArrivedRecord(state);
    var word := sys.nodes[n].shards[s].word;
    match pc
    case Loop(seen) =>
      if seen.arrived && word == seen && !ch.spurious {
        RangeShard(sys.nodes, n, s, Plus(seen, u));
        AddRecord(state, u);
        PutShardPacks(ps, sys.nodes, n, s, AddUnit(state, u));
      }
    case Cas(seen) =>
      if word == seen {
        FirstRecord(state, u);
        PutShardPacks(ps, sys.nodes, n, s, FirstUnit(state, u));
      }
    case _ =>
  }

  lemma ArriveNodePacks(sys: Sys, ps: seq<PackedNode>, n: nat, pc: NodePc, ch: Choice, state: bv64)
    requires Packs(ps, sys.nodes) && FrameOk(sys.nodes, ArriveNode(n, pc)) && Holds(ArriveNode(n, pc), state)
    requires InRange(sys.nodes) && InRange(RunArriveNode(sys, n, pc, ch).nodes) && n < |ps|
    ensures Packs(PackedArriveNode(ps, n, sys.nodes[n].link.Root?, pc, ch, state), RunArriveNode(sys, n, pc, ch).nodes)
  {
    hide Packs, InRange, ShardRecord, NodeRecord, NodeWordOk, HasArrived, AddShard, ArrivedAt, PutNode, SetNode, Numeral;
    NodePacked(ps, sys.nodes, n);
    var word := sys.nodes[n].word;
    match pc
    case NLoad =>
      if sys.nodes[n].link.Root? {
        RangeNode(sys.nodes, n, word.(count := word.count + 1));
        CountRecord(ps[n].word);
        PutNodePacks(ps, sys.nodes, n, AddShard(ps[n].word));
      }
    case NLoop(seen) =>
      NodeRecordsCompare(ps[n].word, state);
      ArrivedRecord(state);
      if (seen.arrived || sys.nodes[n].link.Root?) && word == seen && !ch.spurious {
        RangeNode(sys.nodes, n, word.(count := word.count + 1));
        CountRecord(state);
        PutNodePacks(ps, sys.nodes, n, AddShard(state));
      }
    case NCas(seen, p, index) =>
      NodeRecordsCompare(ps[n].word, state);
      if word == seen {
        RangeIndex(sys.nodes, p, index);
        ArriveRecord(state, index);
        PutNodePacks(ps, sys.nodes, n, ArrivedAt(state, Numeral(index)));
      }
    case _ =>
  }

  lemma DepartShardPacks(sys: Sys, ps: seq<PackedNode>, n: nat, s: nat, u: Unit, pinned: bool)
    requires Packs(ps, sys.nodes) && ValidShard(sys.nodes, n, s) && n < |ps| && s < |ps[n].shards|
    requires Counter(sys.nodes, UnitToken(n, s, u)) > 0
    ensures Packs(PutShard(ps, n, s, SubtractUnit(ps[n].shards[s], u)), RunDepartShard(sys, n, s, u, pinned).nodes)
  {
    hide Packs, ShardRecord, SubtractUnit, PutShard, SetShard;
    ShardPacked(ps, sys.nodes, n, s);
    SubtractRecord(ps[n].shards[s], u);
    PutShardPacks(ps, sys.nodes, n, s, SubtractUnit(ps[n].shards[s], u));
  }

  lemma FlushPacks(sys: Sys, ps: seq<PackedNode>, n: nat, s: nat)
    requires Packs(ps, sys.nodes) && ValidShard(sys.nodes, n, s) && n < |ps| && s < |ps[n].shards|
    ensures Packs(PackedFlush(ps, n, s), RunFlush(sys, n, s).nodes)
  {
    hide Packs, ShardRecord, PutShard, SetShard;
    ShardPacked(ps, sys.nodes, n, s);
    FlushableRecord(ps[n].shards[s]);
    PutShardPacks(ps, sys.nodes, n, s, STOPPED);
  }

  lemma LatchPacks(sys: Sys, ps: seq<PackedNode>, n: nat, s: nat, next: Frame)
    requires Packs(ps, sys.nodes) && ValidShard(sys.nodes, n, s) && n < |ps| && s < |ps[n].shards|
    ensures Packs(PutShard(ps, n, s, LatchBits(ps[n].shards[s])), RunLatch(sys, n, s, next).nodes)
  {
    hide Packs, ShardRecord, NodeRecord, NodeWordOk, PutShard, SetShard, LatchBits;
    ShardPacked(ps, sys.nodes, n, s);
    LatchRecord(ps[n].shards[s]);
    PutShardPacks(ps, sys.nodes, n, s, LatchBits(ps[n].shards[s]));
  }

  lemma DepartNodePacks(sys: Sys, ps: seq<PackedNode>, n: nat)
    requires Packs(ps, sys.nodes) && n < |sys.nodes| && n < |ps| && sys.nodes[n].word.count > 0
    ensures Packs(PutNode(ps, n, SubtractShard(ps[n].word)), RunDepartNode(sys, n).nodes)
  {
    hide Packs, NodeRecord, NodeWordOk, SubtractShard, PutNode, SetNode;
    NodePacked(ps, sys.nodes, n);
    UncountRecord(ps[n].word);
    PutNodePacks(ps, sys.nodes, n, SubtractShard(ps[n].word));
  }

  lemma ReleasePacks(sys: Sys, ps: seq<PackedNode>, n: nat, left: NodeWord, state: bv64)
    requires Packs(ps, sys.nodes) && IsChild(sys.nodes, n) && n < |ps|
    requires NodeWordOk(state) && NodeRecord(state) == left
    ensures Packs(PackedRelease(ps, n, state), RunRelease(sys, n, left).nodes)
  {
    hide Packs, NodeRecord, NodeWordOk, PutNode, SetNode, Released;
    NodePacked(ps, sys.nodes, n);
    NodeRecordsCompare(ps[n].word, state);
    ReleasedRecord(state);
    PutNodePacks(ps, sys.nodes, n, Released(state));
  }

  lemma BeginPacks(sys: Sys, ps: seq<PackedNode>, n: nat, ch: Choice)
    requires Packs(ps, sys.nodes) && n < |sys.nodes| && n < |ps|
    ensures Packs(PutNode(ps, n, LatchBits(ps[n].word)), RunStop(sys, n, Begin, ch).nodes)
  {
    hide Packs, ShardRecord, NodeRecord, NodeWordOk, PutNode, LatchBits;
    NodePacked(ps, sys.nodes, n);
    LatchRecord(ps[n].word);
    PutNodePacks(ps, sys.nodes, n, LatchBits(ps[n].word));
    assert sys.nodes[n].word.stopped ==> SetNode(sys.nodes, n, sys.nodes[n].word.(stopped := true)) == sys.nodes;
  }

  lemma StopPacks(sys: Sys, ps: seq<PackedNode>, n: nat, pc: StopPc, ch: Choice)
    requires Packs(ps, sys.nodes) && n < |sys.nodes| && n < |ps| && |ps[n].shards| == |sys.nodes[n].shards|
    ensures Packs(PackedStop(ps, n, pc), RunStop(sys, n, pc, ch).nodes)
  {
    hide Packs, PutShard, PutNode, LatchBits, LiveChildren, NotifyAll, RunLatch;
    match pc
    case Begin => BeginPacks(sys, ps, n, ch);
    case Latch(i, zero) => if i < |ps[n].shards| { LatchPacks(sys, ps, n, i, Stop(n, Latch(i + 1, zero))); }
    case _ =>
  }

  lemma CollectPacks(sys: Sys, ps: seq<PackedNode>, n: nat, pc: DropPc)
    requires Packs(ps, sys.nodes) && Safe(sys.nodes, Collect(n, pc)) && n < |ps| && |ps[n].shards| == |sys.nodes[n].shards|
    ensures Packs(PackedCollect(ps, n, pc), RunCollect(sys, n, pc).nodes)
  {
    hide Packs, PutShard, LatchBits, RunLatch;
    match pc
    case DropLatch(i) => if i < |ps[n].shards| { LatchPacks(sys, ps, n, i, Collect(n, DropLatch(i + 1))); }
    case _ => SameWordsPack(ps, sys.nodes, RunCollect(sys, n, pc).nodes);
  }

  lemma NewChildPacks(sys: Sys, ps: seq<PackedNode>, p: nat, pc: ChildPc, ch: Choice)
    requires Packs(ps, sys.nodes) && Safe(sys.nodes, NewChild(p, pc))
    ensures Packs(if pc.Alloc? then ps + [PackedNew(1)] else ps, RunNewChild(sys, p, pc, ch).nodes)
  {
    hide Packs, PackedNew, NewNode;
    match pc
    case Alloc(s) => NewNodePacks(ps, sys.nodes, Child(p, s, None), 1, 0);
    case _ => SameWordsPack(ps, sys.nodes, RunNewChild(sys, p, pc, ch).nodes);
  }

  lemma ProbePacks(sys: Sys, ps: seq<PackedNode>, n: nat, s: nat, pc: ProbePc, ch: Choice, state: bv64)
    requires Packs(ps, sys.nodes) && ValidShard(sys.nodes, n, s) && Holds(Probe(n, s, pc), state)
    requires InRange(RunProbe(sys, n, s, pc, ch).nodes) && n < |ps| && s < |ps[n].shards|
    ensures Packs(PackedProbe(ps, n, s, pc, ch, state), RunProbe(sys, n, s, pc, ch).nodes)
  {
    hide Packs, InRange, ShardRecord, NodeRecord, NodeWordOk, HasArrived, AddUnit, PutShard, SetShard, ShardInRange;
    ShardPacked(ps, sys.nodes, n, s);
    RecordsCompare(ps[n].shards[s], state);
    ArrivedRecord(state);
    match pc
    case PLoop(seen) =>
      if seen.arrived && sys.nodes[n].shards[s].word == seen && !ch.spurious {
        RangeShard(sys.nodes, n, s, Plus(seen, Local));
        AddRecord(state, Local);
        PutShardPacks(ps, sys.nodes, n, s, AddUnit(state, Local));
      }
    case _ =>
  }

  lemma ArmedSafe(sys: Sys, f: Frame, ch: Choice)
    requires Armed(sys, f, ch)
    ensures Safe(sys.nodes, f) && FrameOk(sys.nodes, f)
  {
    hide Words, Latches;
  }

  /** A frame's transition does the same to the packed words as to the records. */
  lemma PerformPacks(sys: Sys, ps: seq<PackedNode>, f: Frame, ch: Choice, state: bv64)
    requires Armed(sys, f, ch) && Packs(ps, sys.nodes) && Holds(f, state) && Shaped(ps, sys.nodes)
    requires InRange(sys.nodes) && InRange(Perform(sys, f, ch).nodes)
    ensures Packs(PackedPerform(ps, sys.nodes, f, ch, state), Perform(sys, f, ch).nodes)
  {
    hide Packs, InRange, Words, Latches, Plus, Minus, FrameOk;
    hide RunArriveShard, RunArriveNode, RunDepartShard, RunFlush, RunDepartNode, RunRelease, RunStop, RunNewChild, RunCollect, RunProbe;
    hide PackedArriveShard, PackedArriveNode, PackedFlush, PackedRelease, PackedStop, PackedCollect, PackedProbe, SubtractUnit;
    hide SubtractShard, PutShard, PutNode, PackedNew;
    ArmedSafe(sys, f, ch);
    match f
    case ArriveShard(n, s, u, pc) => ArriveShardPacks(sys, ps, n, s, u, pc, ch, state);
    case ArriveNode(n, pc) => ArriveNodePacks(sys, ps, n, pc, ch, state);
    case DepartShard(n, s, u, pinned) => DepartShardPacks(sys, ps, n, s, u, pinned);
    case FlushIfAlive(_, _) =>
    case Flush(n, s) => FlushPacks(sys, ps, n, s);
    case DepartNode(n, _) => DepartNodePacks(sys, ps, n);
    case NotifyZero(_, _) =>
    case Release(n, left) => ReleasePacks(sys, ps, n, left, state);
    case Stop(n, pc) => StopPacks(sys, ps, n, pc, ch);
    case NewChild(p, pc) => NewChildPacks(sys, ps, p, pc, ch);
    case Collect(n, pc) => CollectPacks(sys, ps, n, pc);
    case Probe(n, s, pc) => ProbePacks(sys, ps, n, s, pc, ch, state);
  }

  // ---- The bits that calls hold -----------------------------------------------------------------------------

  /** The words, and for every frame of every stack the bits in its call's `state`. */
  datatype Packed = Packed(nodes: seq<PackedNode>, held: seq<seq<bv64>>)

  predicate ValidWord(ps: seq<PackedNode>, n: nat, s: nat) {
    n < |ps| && s < |ps[n].shards|
  }

  /** The bits with which a frame follows one that held `state`: what it has just loaded, what it has
      just written, or what was held before. */
  function BitsFor(g: Frame, f: Frame, state: bv64, ps: seq<PackedNode>, ps': seq<PackedNode>): bv64 {
    match g
    case ArriveShard(n, s, _, Loop(_)) => if ValidWord(ps, n, s) then ps[n].shards[s] else 0
    case ArriveNode(n, NLoop(_)) => if n < |ps| then ps[n].word else 0
    case Probe(n, s, PLoop(_)) => if ValidWord(ps, n, s) then ps[n].shards[s] else 0
    case NotifyZero(n, _) => if n < |ps'| then ps'[n].word else 0
    case Release(n, _) => if f.DepartNode? && n < |ps'| then ps'[n].word else state
    case _ => state
  }

  /** The frame `g`, which follows `f`, holds the bits of the record that it has seen. */
  ghost predicate Carries(g: Frame, f: Frame, state: bv64, ps: seq<PackedNode>, ps': seq<PackedNode>) {
    Holds(g, BitsFor(g, f, state, ps, ps'))
  }

  lemma ShardLoadCarries(n: nat, s: nat, u: Unit, word: ShardWord, f: Frame, state: bv64, ps: seq<PackedNode>, ps': seq<PackedNode>)
    requires ValidWord(ps, n, s) && ShardRecord(ps[n].shards[s]) == word
    ensures Carries(ArriveShard(n, s, u, Loop(word)), f, state, ps, ps')
  {
    hide ShardRecord, NodeRecord, NodeWordOk;
  }

  lemma ShardWaitCarries(n: nat, s: nat, u: Unit, seen: ShardWord, f: Frame, state: bv64, ps: seq<PackedNode>, ps': seq<PackedNode>)
    requires ShardRecord(state) == seen
    ensures Carries(ArriveShard(n, s, u, Wait(seen)), f, state, ps, ps') && Carries(ArriveNode(n, NLoad), f, state, ps, ps')
    ensures Carries(DepartNode(n, s), f, state, ps, ps')
  {
    hide ShardRecord, NodeRecord, NodeWordOk;
  }

  lemma ArriveShardHolds(sys: Sys, ps: seq<PackedNode>, ps': seq<PackedNode>, n: nat, s: nat, u: Unit, pc: ShardPc, ch: Choice, state: bv64, i: nat)
    requires Packs(ps, sys.nodes) && ValidShard(sys.nodes, n, s) && (!pc.Load? ==> ShardRecord(state) == pc.seen)
    requires i < |RunArriveShard(sys, n, s, u, pc, ch).push|
    ensures Carries(RunArriveShard(sys, n, s, u, pc, ch).push[i], ArriveShard(n, s, u, pc), state, ps, ps')
  {
    hide Packs, ShardRecord, NodeRecord, NodeWordOk, SetShard, Carries;
    ShardPacked(ps, sys.nodes, n, s);
    ShardLoadCarries(n, s, u, sys.nodes[n].shards[s].word, ArriveShard(n, s, u, pc), state, ps, ps');
    if !pc.Load? { ShardWaitCarries(n, s, u, pc.seen, ArriveShard(n, s, u, pc), state, ps, ps'); }
  }

  lemma LoadCarries(n: nat, word: NodeWord, f: Frame, state: bv64, ps: seq<PackedNode>, ps': seq<PackedNode>)
    requires n < |ps| && NodeWordOk(ps[n].word) && NodeRecord(ps[n].word) == word
    ensures Carries(ArriveNode(n, NLoop(word)), f, state, ps, ps')
  {
    hide NodeRecord, NodeWordOk;
  }

  lemma WaitCarries(n: nat, seen: NodeWord, p: nat, index: nat, f: Frame, state: bv64, ps: seq<PackedNode>, ps': seq<PackedNode>)
    requires NodeWordOk(state) && NodeRecord(state) == seen
    ensures Carries(ArriveNode(n, NWait(seen, p, index)), f, state, ps, ps')
  {
    hide NodeRecord, NodeWordOk;
  }

  lemma FreshCarries(n: nat, s: nat, u: Unit, f: Frame, state: bv64, ps: seq<PackedNode>, ps': seq<PackedNode>)
    ensures Carries(ArriveShard(n, s, u, Load), f, state, ps, ps') && Carries(DepartShard(n, s, u, true), f, state, ps, ps')
  {
    hide NodeRecord, NodeWordOk, ShardRecord;
  }

  lemma ArriveNodeHolds(sys: Sys, ps: seq<PackedNode>, ps': seq<PackedNode>, n: nat, pc: NodePc, ch: Choice, state: bv64, i: nat)
    requires Packs(ps, sys.nodes) && n < |sys.nodes| && (!pc.NLoad? ==> NodeWordOk(state) && NodeRecord(state) == pc.nseen)
    requires i < |RunArriveNode(sys, n, pc, ch).push|
    ensures Carries(RunArriveNode(sys, n, pc, ch).push[i], ArriveNode(n, pc), state, ps, ps')
  {
    hide Packs, NodeRecord, NodeWordOk, SetNode, Carries;
    NodePacked(ps, sys.nodes, n);
    LoadCarries(n, sys.nodes[n].word, ArriveNode(n, pc), state, ps, ps');
    match pc
    case NLoad =>
    case NLoop(seen) =>
      if !seen.arrived && sys.nodes[n].link.Child? {
        WaitCarries(n, seen, sys.nodes[n].link.parent, ch.index, ArriveNode(n, pc), state, ps, ps');
        FreshCarries(sys.nodes[n].link.parent, ch.index, Kid, ArriveNode(n, pc), state, ps, ps');
      }
    case NWait(seen, p, index) => WaitCarries(n, seen, p, index, ArriveNode(n, pc), state, ps, ps');
    case NCas(seen, p, index) => FreshCarries(p, index, Kid, ArriveNode(n, pc), state, ps, ps');
  }

  lemma DepartNodeHolds(sys: Sys, ps: seq<PackedNode>, ps': seq<PackedNode>, n: nat, s: nat, state: bv64, i: nat)
    requires n < |sys.nodes| && Packs(ps', RunDepartNode(sys, n).nodes)
    requires i < |RunDepartNode(sys, n).push|
    ensures var g := RunDepartNode(sys, n).push[i]; Carries(g, DepartNode(n, s), state, ps, ps')
  {
    hide Packs, ShardRecord, NodeRecord, NodeWordOk;
    NodePacked(ps', RunDepartNode(sys, n).nodes, n);
  }

  lemma ProbeHolds(sys: Sys, ps: seq<PackedNode>, ps': seq<PackedNode>, n: nat, s: nat, pc: ProbePc, ch: Choice, state: bv64, i: nat)
    requires Packs(ps, sys.nodes) && ValidShard(sys.nodes, n, s)
    requires i < |RunProbe(sys, n, s, pc, ch).push|
    ensures var g := RunProbe(sys, n, s, pc, ch).push[i]; Carries(g, Probe(n, s, pc), state, ps, ps')
  {
    hide Packs, ShardRecord, NodeRecord, NodeWordOk, SetShard;
    ShardPacked(ps, sys.nodes, n, s);
  }

  /** The frames of a departure that hold no bits, of a stop, a destructor or a creation. */
  lemma OtherHolds(sys: Sys, ps: seq<PackedNode>, ps': seq<PackedNode>, f: Frame, ch: Choice, state: bv64, i: nat)
    requires Safe(sys.nodes, f) && Allowed(sys.nodes, f, ch) && Holds(f, state)
    requires !f.ArriveShard? && !f.ArriveNode? && !f.DepartNode? && !f.Probe? && !f.NotifyZero?
    requires i < |Perform(sys, f, ch).push|
    ensures var g := Perform(sys, f, ch).push[i]; Carries(g, f, state, ps, ps')
  {
    hide ShardRecord, NodeRecord, NodeWordOk, SetShard, SetNode, SetLife, SetHandles, SetChildren, Registered, LiveChildren, NotifyAll;
  }

  lemma NotifyZeroHolds(sys: Sys, ps: seq<PackedNode>, ps': seq<PackedNode>, n: nat, left: NodeWord, state: bv64, i: nat)
    requires n < |sys.nodes| && Holds(NotifyZero(n, left), state)
    requires i < |RunNotifyZero(sys, n, left).push|
    ensures var g := RunNotifyZero(sys, n, left).push[i]; Carries(g, NotifyZero(n, left), state, ps, ps')
  {
    hide NodeRecord, NodeWordOk, NotifyAll;
  }

  /** Every frame that a transition leaves holds the bits of the record that it has seen. */
  lemma PerformHolds(sys: Sys, ps: seq<PackedNode>, ps': seq<PackedNode>, f: Frame, ch: Choice, state: bv64, i: nat)
    requires Safe(sys.nodes, f) && Allowed(sys.nodes, f, ch) && Holds(f, state)
    requires Packs(ps, sys.nodes) && Packs(ps', Perform(sys, f, ch).nodes)
    requires i < |Perform(sys, f, ch).push|
    ensures var g := Perform(sys, f, ch).push[i]; Carries(g, f, state, ps, ps')
  {
    hide Packs, Carries, ShardRecord, NodeRecord, NodeWordOk, RunArriveShard, RunArriveNode, RunDepartNode, RunProbe, RunNotifyZero;
    match f
    case ArriveShard(n, s, u, pc) => ArriveShardHolds(sys, ps, ps', n, s, u, pc, ch, state, i);
    case ArriveNode(n, pc) => ArriveNodeHolds(sys, ps, ps', n, pc, ch, state, i);
    case DepartNode(n, s) => DepartNodeHolds(sys, ps, ps', n, s, state, i);
    case NotifyZero(n, left) => NotifyZeroHolds(sys, ps, ps', n, left, state, i);
    case Probe(n, s, pc) => ProbeHolds(sys, ps, ps', n, s, pc, ch, state, i);
    case _ => OtherHolds(sys, ps, ps', f, ch, state, i);
  }

  // ---- Runs ---------------------------------------------------------------------------------------------------

  ghost predicate StackHolds(bits: seq<bv64>, stack: seq<Frame>) {
    |bits| == |stack| && forall k :: 0 <= k < |stack| ==> Holds(stack[k], bits[k])
  }

  /** The words stand for the records, and so do the bits that the calls hold. */
  ghost predicate Coupled(p: Packed, sys: Sys) {
    && Packs(p.nodes, sys.nodes) && |p.held| == |sys.threads|
    && forall t :: 0 <= t < |p.held| ==> StackHolds(p.held[t], sys.threads[t])
  }

  /** There are words and held bits wherever the transition looks for them. */
  ghost predicate Fitting(p: Packed, sys: Sys) {
    && Shaped(p.nodes, sys.nodes) && |p.held| == |sys.threads|
    && forall t :: 0 <= t < |p.held| ==> |p.held[t]| == |sys.threads[t]|
  }

  function PackedAdvance(p: Packed, sys: Sys, t: nat, ch: Choice): Packed
    requires Fitting(p, sys) && Enabled(sys, Run(t, ch))
  {
    var f := Last(sys.threads[t]);
    var push := Perform(sys, f, ch).push;
    var state := Last(p.held[t]);
    var ps' := PackedPerform(p.nodes, sys.nodes, f, ch, state);
    Packed(ps', p.held[t := Front(p.held[t]) + seq(|push|, i requires 0 <= i < |push| => BitsFor(push[i], f, state, p.nodes, ps'))])
  }

  /** A call that begins holds no bits. */
  function Begun(p: Packed, t: nat): Packed
    requires t < |p.held|
  {
    p.(held := p.held[t := [0]])
  }

  function PackedApply(p: Packed, sys: Sys, action: Action): Packed
    requires Fitting(p, sys) && Enabled(sys, action)
  {
    match action
    case Run(t, ch) => PackedAdvance(p, sys, t, ch)
    case StartRoot(shards) => p.(nodes := p.nodes + [PackedNew(shards)])
    case StartGuard(t, _, _) => Begun(p, t)
    case StartProbe(t, _, _) => Begun(p, t)
    case StartStop(t, _) => Begun(p, t)
    case StartChild(t, _, _) => Begun(p, t)
    case StartCollect(t, _) => Begun(p, t)
    case DropHandle(t, n) => if sys.nodes[n].handles == 1 && sys.nodes[n].link.Root? then Begun(p, t) else p
    case CloneGuard(home) =>
      p.(nodes := PutShard(p.nodes, home.node, home.shard, AddUnit(p.nodes[home.node].shards[home.shard], Local)))
    case DropGuard(t, _) => Begun(p, t)
    case _ => p
  }

  lemma CoupledFits(p: Packed, sys: Sys)
    requires Coupled(p, sys)
    ensures Fitting(p, sys)
  {
    hide Packs, Holds;
    PacksShaped(p.nodes, sys.nodes);
    forall t | 0 <= t < |p.held| ensures |p.held[t]| == |sys.threads[t]| { assert StackHolds(p.held[t], sys.threads[t]); }
  }

  lemma ResumeHolds(f: Frame, state: bv64)
    requires Holds(f, state)
    ensures Holds(Resume(f), state)
  {
    hide ShardRecord, NodeRecord, NodeWordOk;
  }

  lemma BelowHolds(base: seq<Frame>, bits: seq<bv64>, arrived: bool)
    requires StackHolds(bits, base)
    ensures StackHolds(bits, Below(base, arrived))
  {
    hide Holds, Resume;
    if arrived && |base| > 0 { ResumeHolds(Last(base), Last(bits)); }
  }

  lemma PushHolds(base: seq<Frame>, bits: seq<bv64>, push: seq<Frame>, pushed: seq<bv64>)
    requires StackHolds(bits, base) && StackHolds(pushed, push)
    ensures StackHolds(bits + pushed, base + push)
  {
    hide Holds;
  }

  lemma FrontHolds(stack: seq<Frame>, bits: seq<bv64>)
    requires StackHolds(bits, stack) && |stack| > 0
    ensures StackHolds(Front(bits), Front(stack)) && Holds(Last(stack), Last(bits))
  {
    hide Holds;
  }

  lemma AdvanceCoupled(p: Packed, sys: Sys, t: nat, ch: Choice)
    requires Coupled(p, sys) && Fitting(p, sys) && Enabled(sys, Run(t, ch)) && Armed(sys, Last(sys.threads[t]), ch)
    requires InRange(sys.nodes) && InRange(Advance(sys, t, ch).nodes)
    ensures Coupled(PackedAdvance(p, sys, t, ch), Advance(sys, t, ch))
  {
    hide Packs, Holds, Armed, Perform, PackedPerform, InRange, BitsFor, Below, Safe, Allowed, Shaped;
    var stack, f, state := sys.threads[t], Last(sys.threads[t]), Last(p.held[t]);
    var o := Perform(sys, f, ch);
    var ps' := PackedPerform(p.nodes, sys.nodes, f, ch, state);
    assert StackHolds(p.held[t], stack);
    FrontHolds(stack, p.held[t]);
    PerformPacks(sys, p.nodes, f, ch, state);
    var pushed := seq(|o.push|, i requires 0 <= i < |o.push| => BitsFor(o.push[i], f, state, p.nodes, ps'));
    forall i | 0 <= i < |o.push| ensures Holds(o.push[i], pushed[i]) {
      PerformHolds(sys, p.nodes, ps', f, ch, state, i);
    }
    BelowHolds(Front(stack), Front(p.held[t]), o.arrived);
    PushHolds(Below(Front(stack), o.arrived), Front(p.held[t]), o.push, pushed);
  }

  lemma BegunCoupled(p: Packed, sys: Sys, t: nat, f: Frame, nodes': seq<Node>)
    requires Coupled(p, sys) && t < |sys.threads| && WordsKept(sys.nodes, nodes') && Holds(f, 0)
    ensures t < |p.held|
    ensures Coupled(Begun(p, t), Spawn(sys, t, f).(nodes := nodes'))
  {
    hide Packs, Holds;
    SameWordsPack(p.nodes, sys.nodes, nodes');
  }

  lemma SameMemory(p: Packed, sys: Sys, sys': Sys)
    requires Coupled(p, sys) && sys'.threads == sys.threads && WordsKept(sys.nodes, sys'.nodes)
    ensures Coupled(p, sys')
  {
    hide Packs, StackHolds, WordsKept;
    SameWordsPack(p.nodes, sys.nodes, sys'.nodes);
  }

  lemma HandlesKeepWords(nodes: seq<Node>, n: nat, handles: nat)
    requires n < |nodes|
    ensures WordsKept(nodes, SetHandles(nodes, n, handles))
  {
  }

  lemma LifeKeepsWords(nodes: seq<Node>, n: nat, life: Life)
    requires n < |nodes|
    ensures WordsKept(nodes, SetLife(nodes, n, life))
  {
  }

  lemma NoWordsChange(nodes: seq<Node>)
    ensures WordsKept(nodes, nodes)
  {
  }

  lemma BeginningHolds(f: Frame)
    requires match f
             case ArriveShard(_, _, _, pc) => pc.Load?
             case Probe(_, _, pc) => !pc.PLoop?
             case _ => f.Stop? || f.NewChild? || f.Collect? || f.DepartShard?
    ensures Holds(f, 0)
  {
    hide ShardRecord, NodeRecord, NodeWordOk;
  }

  lemma CloneCoupled(p: Packed, sys: Sys, home: Home)
    requires Coupled(p, sys) && Fitting(p, sys) && Enabled(sys, CloneGuard(home)) && InRange(Apply(sys, CloneGuard(home)).nodes)
    ensures Coupled(PackedApply(p, sys, CloneGuard(home)), Apply(sys, CloneGuard(home)))
  {
    hide Packs, StackHolds, InRange, ShardRecord, AddUnit, PutShard, SetShard, ShardInRange;
    var n, s := home.node, home.shard;
    ShardPacked(p.nodes, sys.nodes, n, s);
    RangeShard(sys.nodes, n, s, Plus(sys.nodes[n].shards[s].word, Local));
    AddRecord(p.nodes[n].shards[s], Local);
    PutShardPacks(p.nodes, sys.nodes, n, s, AddUnit(p.nodes[n].shards[s], Local));
  }

  lemma RootCoupled(p: Packed, sys: Sys, shards: nat)
    requires Coupled(p, sys) && Fitting(p, sys) && shards > 0
    ensures Coupled(PackedApply(p, sys, StartRoot(shards)), Apply(sys, StartRoot(shards)))
  {
    hide Packs, StackHolds, PackedNew, NewNode;
    NewNodePacks(p.nodes, sys.nodes, Root, shards, 1);
  }

  lemma RequestedCoupled(p: Packed, sys: Sys, requested: set<nat>)
    requires Coupled(p, sys)
    ensures Coupled(p, sys.(requested := requested))
  {
    hide Packs, StackHolds;
  }

  lemma GuardsCoupled(p: Packed, sys: Sys, guards: multiset<Home>)
    requires Coupled(p, sys)
    ensures Coupled(p, sys.(guards := guards))
  {
    hide Packs, StackHolds;
  }

  lemma DropHandleCoupled(p: Packed, sys: Sys, t: nat, n: nat)
    requires Coupled(p, sys) && Fitting(p, sys) && Enabled(sys, DropHandle(t, n))
    ensures Coupled(PackedApply(p, sys, DropHandle(t, n)), Apply(sys, DropHandle(t, n)))
  {
    hide Packs, StackHolds, WordsKept, SetHandles, Begun, Holds, Coupled;
    var handles := sys.nodes[n].handles - 1;
    HandlesKeepWords(sys.nodes, n, handles);
    var dropped := sys.(nodes := SetHandles(sys.nodes, n, handles));
    if sys.nodes[n].handles == 1 && sys.nodes[n].link.Root? {
      BeginningHolds(Stop(n, Begin));
      BegunCoupled(p, sys, t, Stop(n, Begin), dropped.nodes);
      RequestedCoupled(Begun(p, t), Spawn(dropped, t, Stop(n, Begin)), sys.requested + {n});
    } else {
      SameMemory(p, sys, dropped);
    }
  }

  /** Every transition that keeps the counters in range does the same to the packed words as to the
      records. */
  lemma PackedStep(p: Packed, sys: Sys, action: Action)
    requires Inv(sys) && Enabled(sys, action) && Coupled(p, sys) && Fitting(p, sys)
    requires InRange(sys.nodes) && InRange(Apply(sys, action).nodes)
    ensures Coupled(PackedApply(p, sys, action), Apply(sys, action))
  {
    hide Inv, Coupled, Fitting, InRange, Armed, Unpinned, Begun, Holds, WordsKept, SetLife, SetHandles, SetShard, PutShard;
    hide PackedAdvance, Advance, StepWaiter, NewNode, PackedNew, Safe, Allowed, AddUnit, Plus;
    NoWordsChange(sys.nodes);
    match action
    case Run(t, ch) =>
      TopArmed(sys, t, ch);
      AdvanceCoupled(p, sys, t, ch);
    case StartRoot(shards) => RootCoupled(p, sys, shards);
    case StartGuard(t, n, s) =>
      BeginningHolds(ArriveShard(n, s, Local, Load));
      BegunCoupled(p, sys, t, ArriveShard(n, s, Local, Load), sys.nodes);
    case StartProbe(t, n, s) =>
      var f := Probe(n, s, if sys.nodes[n].link.Root? then PLoad else Upgrade);
      BeginningHolds(f);
      BegunCoupled(p, sys, t, f, sys.nodes);
    case StartStop(t, n) =>
      BeginningHolds(Stop(n, Begin));
      BegunCoupled(p, sys, t, Stop(n, Begin), sys.nodes);
      RequestedCoupled(Begun(p, t), Spawn(sys, t, Stop(n, Begin)), sys.requested + {n});
    case StartChild(t, n, s) =>
      BeginningHolds(NewChild(n, Alloc(s)));
      BegunCoupled(p, sys, t, NewChild(n, Alloc(s)), sys.nodes);
    case StartCollect(t, n) =>
      LifeKeepsWords(sys.nodes, n, Dropping);
      BeginningHolds(Collect(n, DropLatch(0)));
      BegunCoupled(p, sys, t, Collect(n, DropLatch(0)), SetLife(sys.nodes, n, Dropping));
    case CloneHandle(n) =>
      HandlesKeepWords(sys.nodes, n, sys.nodes[n].handles + 1);
      SameMemory(p, sys, Apply(sys, action));
    case DropHandle(t, n) => DropHandleCoupled(p, sys, t, n);
    case CloneGuard(home) => CloneCoupled(p, sys, home);
    case DropGuard(t, home) =>
      var f := DepartShard(home.node, home.shard, Local, sys.nodes[home.node].link.Child?);
      BeginningHolds(f);
      BegunCoupled(p, sys, t, f, sys.nodes);
      GuardsCoupled(Begun(p, t), Spawn(sys, t, f), sys.guards - multiset{home});
    case StartWait(_, _) => SameMemory(p, sys, Apply(sys, action));
    case RunWaiter(_) => SameMemory(p, sys, Apply(sys, action));
    case DropWaiter(_) => SameMemory(p, sys, Apply(sys, action));
  }

  /** One transition of the protocol, and the same transition on packed words. */
  ghost predicate PackedNext(p: Packed, sys: Sys, p': Packed, sys': Sys) {
    exists action :: Enabled(sys, action) && sys' == Apply(sys, action) && Fitting(p, sys) && p' == PackedApply(p, sys, action)
  }

  /** A run, and the same run on packed words. */
  ghost predicate PackedRun(packed: seq<Packed>, run: seq<Sys>) {
    && IsRun(run) && |packed| == |run|
    && packed[0] == Packed([], seq(|run[0].threads|, i => []))
    && forall i :: 0 <= i < |run| - 1 ==> PackedNext(packed[i], run[i], packed[i + 1], run[i + 1])
  }

  lemma InitCoupled(sys: Sys)
    requires Init(sys)
    ensures Coupled(Packed([], seq(|sys.threads|, i => [])), sys)
  {
    hide Holds, NodePacks;
  }

  /** In every run whose counters stay in the ranges of their fields, every packed word stands for the
      protocol's record of it, and so do the bits that calls in progress hold. */
  lemma {:induction false} RunsRefine(packed: seq<Packed>, run: seq<Sys>, i: nat)
    requires PackedRun(packed, run) && i < |run| && forall j: nat :: j <= i ==> InRange(run[j].nodes)
    ensures Coupled(packed[i], run[i])
  {
    hide Coupled, InRange, Init, Next, Enabled, Apply, PackedApply, Fitting, Inv;
    if i == 0 {
      InitCoupled(run[0]);
    } else {
      RunsRefine(packed, run, i - 1);
      RunInv(run, i - 1);
      assert PackedNext(packed[i - 1], run[i - 1], packed[i - 1 + 1], run[i - 1 + 1]);
      var p, sys := packed[i - 1], run[i - 1];
      var action :| Enabled(sys, action) && run[i] == Apply(sys, action) && Fitting(p, sys) && packed[i] == PackedApply(p, sys, action);
      PackedStep(p, sys, action);
    }
  }

  /** The packed words of a run are never at a loss: whatever the protocol does next, they do too. */
  lemma {:induction false} RunsPack(run: seq<Sys>) returns (packed: seq<Packed>)
    requires IsRun(run) && forall j: nat :: j < |run| ==> InRange(run[j].nodes)
    ensures PackedRun(packed, run)
    decreases |run|
  {
    hide Coupled, InRange, Init, Enabled, Apply, PackedApply, Fitting;
    if |run| == 1 {
      packed := [Packed([], seq(|run[0].threads|, i => []))];
    } else {
      var k := |run| - 1;
      var before := run[..k];
      forall i | 0 <= i < k - 1 ensures Next(before[i], before[i + 1]) { assert Next(run[i], run[i + 1]); }
      packed := RunsPack(before);
      RunsRefine(packed, before, k - 1);
      CoupledFits(packed[k - 1], run[k - 1]);
      assert Next(run[k - 1], run[k - 1 + 1]);
      var action :| Enabled(run[k - 1], action) && run[k] == Apply(run[k - 1], action);
      var was := packed;
      packed := packed + [PackedApply(packed[k - 1], run[k - 1], action)];
      forall i | 0 <= i < k ensures PackedNext(packed[i], run[i], packed[i + 1], run[i + 1]) {
        if i < k - 1 { assert PackedNext(was[i], before[i], was[i + 1], before[i + 1]); }
      }
    }
  }
}
