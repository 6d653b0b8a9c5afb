/** Who owns each counted unit, and who owes what. Every unit that a shard or a node counts is
    owned by a guard, by an arrived word, or by a call in progress; and every change that the
    protocol has put off is owed by a call in progress. Both are tokens, so that a transition
    balances if the tokens it takes and gives do. */
module Ledger {
  import opened Memory
  import opened Protocol
  import opened Bags

  datatype Token =
    // Units of a counter.
    | LocalUnit(n: nat, s: nat)
    | KidUnit(n: nat, s: nat)
    | NodeUnit(n: nat)
    // Things still to be done.
    | MustFlush(n: nat, s: nat)
    | MustRelease(n: nat, left: NodeWord)
    | MustNotify(n: nat)
    | MustSignal(n: nat)
    | MustLatch(n: nat)
    | MustSnapshot(n: nat, i: nat)
    | MustStop(n: nat)
    | MustRegister(n: nat)
    | Collecting(n: nat)

  predicate IsUnit(token: Token) {
    token.LocalUnit? || token.KidUnit? || token.NodeUnit?
  }

  function UnitToken(n: nat, s: nat, unit: Unit): Token {
    if unit == Local then LocalUnit(n, s) else KidUnit(n, s)
  }

  function Just(token: Token): multiset<Token> {
    multiset{token}
  }

  function If(b: bool, token: Token): multiset<Token> {
    if b then multiset{token} else multiset{}
  }

  function MustStopAll(work: set<nat>): multiset<Token> {
    multiset(set c | c in work :: MustStop(c))
  }

  function StopTokens(n: nat, pc: StopPc): multiset<Token> {
    match pc
    case Begin => Just(MustStop(n))
    case Latch(_, zero) => Just(MustLatch(n)) + Just(MustSignal(n)) + Just(MustSnapshot(n, 0)) + If(zero, MustNotify(n))
    case Notify(zero) => Just(MustSignal(n)) + Just(MustSnapshot(n, 0)) + If(zero, MustNotify(n))
    case Snapshot(i, work, zero) => Just(MustSnapshot(n, i)) + MustStopAll(work) + If(zero, MustNotify(n))
    case Descend(work, zero) => MustStopAll(work) + If(zero, MustNotify(n))
    case Zero => Just(MustNotify(n))
  }

  /** What a frame owns and owes. */
  function Tokens(f: Frame): multiset<Token> {
    match f
    case ArriveShard(n, _, _, pc) => If(pc.Cas?, NodeUnit(n))
    case ArriveNode(n, pc) => (match pc case NCas(_, p, index) => Just(KidUnit(p, index)) case _ => multiset{})
    case DepartShard(n, s, unit, _) => Just(UnitToken(n, s, unit))
    case FlushIfAlive(n, s) => Just(MustFlush(n, s))
    case Flush(n, s) => Just(MustFlush(n, s))
    case DepartNode(n, _) => Just(NodeUnit(n))
    case NotifyZero(n, left) => Just(MustNotify(n)) + Just(MustRelease(n, left))
    case Release(n, left) => Just(MustRelease(n, left))
    case Stop(n, pc) => StopTokens(n, pc)
    case NewChild(_, pc) =>
      (match pc
       case Register(c) => Just(MustRegister(c)) + Just(MustStop(c))
       case Check(c) => Just(MustStop(c))
       case _ => multiset{})
    case Collect(n, _) => Just(Collecting(n))
    case Probe(_, _, _) => multiset{}
  }

  function FrameTokens(k: nat, f: Frame): multiset<Token> {
    Tokens(f)
  }

  function StackTokens(t: nat, stack: seq<Frame>): multiset<Token> {
    Sum(FrameTokens, stack)
  }

  /** Everything that the calls in progress own and owe. */
  function ThreadTokens(threads: seq<seq<Frame>>): multiset<Token> {
    Sum(StackTokens, threads)
  }

  /** The unit of its node that an arrived shard owns. */
  function ShardOwns(n: nat): (nat, Shard) -> multiset<Token> {
    (s: nat, shard: Shard) => If(shard.word.arrived, NodeUnit(n))
  }

  /** The unit of its parent shard that an arrived child owns. */
  function LinkOwns(node: Node): multiset<Token> {
    if node.link.Child? && node.word.arrived then multiset{KidUnit(node.link.parent, node.word.home)} else multiset{}
  }

  function NodeOwns(n: nat, node: Node): multiset<Token> {
    Sum(ShardOwns(n), node.shards) + LinkOwns(node)
  }

  /** Everything that arrived words own. */
  function WordTokens(nodes: seq<Node>): multiset<Token> {
    Sum(NodeOwns, nodes)
  }

  /** The value of the counter that a unit belongs to. */
  function Counter(nodes: seq<Node>, unit: Token): int {
    match unit
    case LocalUnit(n, s) => if ValidShard(nodes, n, s) then nodes[n].shards[s].word.local else 0
    case KidUnit(n, s) => if ValidShard(nodes, n, s) then nodes[n].shards[s].word.kids else 0
    case NodeUnit(n) => if ValidNode(nodes, n) then nodes[n].word.count else 0
    case _ => 0
  }

  /** The number of owners of a unit. */
  function Owners(nodes: seq<Node>, guards: multiset<Home>, held: multiset<Token>, unit: Token): int {
    (if unit.LocalUnit? then guards[Home(unit.n, unit.s)] else 0) + WordTokens(nodes)[unit] + held[unit]
  }

  /** Conservation: every counter equals the number of owners of its units. */
  ghost predicate Balanced(nodes: seq<Node>, guards: multiset<Home>, held: multiset<Token>) {
    forall unit :: IsUnit(unit) ==> Counter(nodes, unit) == Owners(nodes, guards, held, unit)
  }

  function One(b: bool): nat {
    if b then 1 else 0
  }

  lemma JustCount(token: Token, x: Token)
    ensures Just(token)[x] == One(x == token)
  {
  }

  lemma IfCount(b: bool, token: Token, x: Token)
    ensures If(b, token)[x] == One(b && x == token)
  {
  }

  // ---- Sums over stacks -----------------------------------------------------------------------------

  /** What the frames of a short stack hold. */
  function Few(frames: seq<Frame>): multiset<Token>
    requires |frames| <= 2
  {
    if |frames| == 0 then multiset{}
    else if |frames| == 1 then Tokens(frames[0])
    else Tokens(frames[0]) + Tokens(frames[1])
  }

  lemma PushFew(t: nat, base: seq<Frame>, frames: seq<Frame>)
    requires |frames| <= 2
    ensures StackTokens(t, base + frames) == StackTokens(t, base) + Few(frames)
  {
    hide Tokens;
    if |frames| == 0 {
      assert base + frames == base;
    } else if |frames| == 1 {
      SumPush(FrameTokens, base, frames[0]);
      assert base + frames == base + [frames[0]];
    } else {
      SumPush(FrameTokens, base, frames[0]);
      SumPush(FrameTokens, base + [frames[0]], frames[1]);
      assert base + frames == base + [frames[0]] + [frames[1]];
    }
  }

  /** Replacing the top of one stack changes the total by the difference. */
  lemma ReplaceTop(threads: seq<seq<Frame>>, t: nat, base: seq<Frame>, before: seq<Frame>, after: seq<Frame>)
    requires t < |threads| && threads[t] == base + before && |before| <= 2 && |after| <= 2
    ensures forall x :: ThreadTokens(threads[t := base + after])[x] + Few(before)[x] == ThreadTokens(threads)[x] + Few(after)[x]
    ensures Few(before) <= ThreadTokens(threads)
  {
    SumUpdate(StackTokens, threads, t, base + after);
    SumMember(StackTokens, threads, t);
    PushFew(t, base, before);
    PushFew(t, base, after);
  }

  /** A token that some call holds is held by some frame. */
  lemma HeldByFrame(threads: seq<seq<Frame>>, token: Token) returns (t: nat, k: nat)
    requires token in ThreadTokens(threads)
    ensures t < |threads| && k < |threads[t]| && token in Tokens(threads[t][k])
  {
    t := SumSource(StackTokens, threads, token);
    k := SumSource(FrameTokens, threads[t], token);
  }

  lemma FrameHolds(threads: seq<seq<Frame>>, t: nat, k: nat)
    requires t < |threads| && k < |threads[t]|
    ensures Tokens(threads[t][k]) <= ThreadTokens(threads)
  {
    SumMember(StackTokens, threads, t);
    SumMember(FrameTokens, threads[t], k);
  }

  lemma QuiescentHoldsNothing(sys: Sys)
    requires Quiescent(sys)
    ensures ThreadTokens(sys.threads) == multiset{}
  {
    SumEmpty(StackTokens, sys.threads);
  }

  // ---- Sums over words ------------------------------------------------------------------------------

  lemma ArrivedShardOwns(nodes: seq<Node>, n: nat, s: nat)
    requires ValidShard(nodes, n, s) && nodes[n].shards[s].word.arrived
    ensures NodeUnit(n) in WordTokens(nodes)
  {
    SumMember(ShardOwns(n), nodes[n].shards, s);
    SumMember(NodeOwns, nodes, n);
    assert NodeUnit(n) in ShardOwns(n)(s, nodes[n].shards[s]);
    assert NodeUnit(n) in NodeOwns(n, nodes[n]);
  }

  lemma ArrivedChildOwns(nodes: seq<Node>, n: nat)
    requires IsChild(nodes, n) && nodes[n].word.arrived
    ensures KidUnit(nodes[n].link.parent, nodes[n].word.home) in WordTokens(nodes)
  {
    SumMember(NodeOwns, nodes, n);
    assert KidUnit(nodes[n].link.parent, nodes[n].word.home) in NodeOwns(n, nodes[n]);
  }

  lemma NodeUnitOwner(nodes: seq<Node>, n: nat) returns (s: nat)
    requires NodeUnit(n) in WordTokens(nodes)
    ensures ValidShard(nodes, n, s) && nodes[n].shards[s].word.arrived
  {
    var m := SumSource(NodeOwns, nodes, NodeUnit(n));
    s := SumSource(ShardOwns(m), nodes[m].shards, NodeUnit(n));
  }

  lemma KidUnitOwner(nodes: seq<Node>, p: nat, s: nat) returns (c: nat)
    requires KidUnit(p, s) in WordTokens(nodes)
    ensures IsChild(nodes, c) && nodes[c].link.parent == p && nodes[c].word.arrived && nodes[c].word.home == s
  {
    c := SumSource(NodeOwns, nodes, KidUnit(p, s));
    if KidUnit(p, s) !in LinkOwns(nodes[c]) {
      var _ := SumSource(ShardOwns(c), nodes[c].shards, KidUnit(p, s));
    }
  }

  lemma LocalUnitNotInWords(nodes: seq<Node>, n: nat, s: nat)
    ensures LocalUnit(n, s) !in WordTokens(nodes)
  {
    if LocalUnit(n, s) in WordTokens(nodes) {
      var m := SumSource(NodeOwns, nodes, LocalUnit(n, s));
      var _ := SumSource(ShardOwns(m), nodes[m].shards, LocalUnit(n, s));
    }
  }

  lemma NodeOwnsSetShard(n: nat, node: Node, s: nat, w: ShardWord, x: Token)
    requires s < |node.shards|
    ensures NodeOwns(n, node.(shards := node.shards[s := node.shards[s].(word := w)]))[x] + One(node.shards[s].word.arrived && x == NodeUnit(n))
         == NodeOwns(n, node)[x] + One(w.arrived && x == NodeUnit(n))
  {
    hide Sum;
    SumUpdate(ShardOwns(n), node.shards, s, node.shards[s].(word := w));
  }

  lemma WordTokensUpdate(nodes: seq<Node>, n: nat, node: Node, x: Token)
    requires n < |nodes|
    ensures WordTokens(nodes[n := node])[x] + NodeOwns(n, nodes[n])[x] == WordTokens(nodes)[x] + NodeOwns(n, node)[x]
  {
    hide NodeOwns;
    SumUpdate(NodeOwns, nodes, n, node);
  }

  lemma WordTokensSetShard(nodes: seq<Node>, n: nat, s: nat, w: ShardWord, x: Token)
    requires ValidShard(nodes, n, s)
    ensures WordTokens(SetShard(nodes, n, s, w))[x] + One(nodes[n].shards[s].word.arrived && x == NodeUnit(n))
         == WordTokens(nodes)[x] + One(w.arrived && x == NodeUnit(n))
  {
    hide Sum, WordTokens;
    var node := SetShard(nodes, n, s, w)[n];
    NodeOwnsSetShard(n, nodes[n], s, w, x);
    WordTokensUpdate(nodes, n, node, x);
  }

  /** Whether an arrived child owns the unit. */
  predicate Owning(node: Node, w: NodeWord, x: Token) {
    node.link.Child? && w.arrived && x == KidUnit(node.link.parent, w.home)
  }

  lemma WordTokensSetNode(nodes: seq<Node>, n: nat, w: NodeWord, x: Token)
    requires ValidNode(nodes, n)
    ensures WordTokens(SetNode(nodes, n, w))[x] + One(Owning(nodes[n], nodes[n].word, x))
         == WordTokens(nodes)[x] + One(Owning(nodes[n], w, x))
  {
    SumUpdate(NodeOwns, nodes, n, nodes[n].(word := w));
  }

  predicate SameWords(a: Node, b: Node) {
    && a.word == b.word && |a.shards| == |b.shards|
    && (a.link.Child? <==> b.link.Child?)
    && (a.link.Child? ==> a.link.parent == b.link.parent && a.link.shard == b.link.shard)
    && forall s :: 0 <= s < |a.shards| ==> a.shards[s].word == b.shards[s].word
  }

  lemma SameWordsOwn(n: nat, a: Node, b: Node)
    requires SameWords(a, b)
    ensures NodeOwns(n, a) == NodeOwns(n, b)
  {
    SumEqual(ShardOwns(n), a.shards, b.shards);
  }

  /** Registries, keys, lives and handles own no units. */
  lemma WordTokensFrame(nodes: seq<Node>, nodes': seq<Node>)
    requires |nodes'| == |nodes| && forall n :: 0 <= n < |nodes| ==> SameWords(nodes[n], nodes'[n])
    ensures WordTokens(nodes') == WordTokens(nodes)
  {
    forall n | 0 <= n < |nodes| ensures NodeOwns(n, nodes[n]) == NodeOwns(n, nodes'[n]) {
      SameWordsOwn(n, nodes[n], nodes'[n]);
    }
    hide NodeOwns;
    SumEqual(NodeOwns, nodes, nodes');
  }

  lemma WordTokensNewNode(nodes: seq<Node>, node: Node)
    requires node.word == EMPTY_NODE && forall s :: 0 <= s < |node.shards| ==> node.shards[s].word == EMPTY_SHARD
    ensures WordTokens(nodes + [node]) == WordTokens(nodes)
  {
    SumEmpty(ShardOwns(|nodes|), node.shards);
    assert NodeOwns(|nodes|, node) == multiset{};
    hide NodeOwns;
    SumPush(NodeOwns, nodes, node);
  }
}
