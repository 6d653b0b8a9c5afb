/** Conservation: every transition moves units between owners without making or losing any, and
    changes each counter by as much as its owners change. */
module LedgerSteps {
  import opened Memory
  import opened Protocol
  import opened Ledger
  import opened Invariant

  /** The unit that an arrival hands to its caller. */
  function Gain(f: Frame, o: Outcome): multiset<Token>
    requires o.arrived ==> f.ArriveShard? || f.ArriveNode?
  {
    if !o.arrived then multiset{}
    else if f.ArriveShard? then multiset{KidUnit(f.n, f.s)}
    else multiset{NodeUnit(f.n)}
  }

  /** A transition replaces its frame by at most two, and returns only from an arrival. */
  lemma OutcomeShape(sys: Sys, f: Frame, ch: Choice)
    requires Safe(sys.nodes, f) && Allowed(sys.nodes, f, ch)
    ensures var o := Perform(sys, f, ch);
            |o.push| <= 2 && (o.arrived ==> o.push == [] && ((f.ArriveShard? && f.unit == Kid) || f.ArriveNode?))
  {
  }

  /** The tokens of all stacks change by what the frame takes and gives. */
  ghost predicate Delta(sys: Sys, t: nat, ch: Choice)
    requires Enabled(sys, Run(t, ch))
  {
    var f, o, held := Last(sys.threads[t]), Perform(sys, Last(sys.threads[t]), ch), ThreadTokens(sys.threads);
    && |o.push| <= 2 && (o.arrived ==> f.ArriveShard? || f.ArriveNode?)
    && Tokens(f) <= held
    && forall x :: ThreadTokens(Advance(sys, t, ch).threads)[x] + Tokens(f)[x] == held[x] + Few(o.push)[x] + Gain(f, o)[x]
  }

  lemma CallerGains(f: Frame, o: Outcome, w: Frame)
    requires o.arrived && ((f.ArriveShard? && f.unit == Kid) || f.ArriveNode?) && Calls(w, f)
    ensures Tokens(w) == multiset{} && Tokens(Resume(w)) == Gain(f, o)
  {
  }

  /** An arrival always has a caller to return to, unless it creates a guard. */
  lemma ArrivalReturns(sys: Sys, t: nat, ch: Choice)
    requires Enabled(sys, Run(t, ch)) && StackOk(sys.nodes, sys.threads[t])
    ensures var stack, o := sys.threads[t], Perform(sys, Last(sys.threads[t]), ch);
            && |o.push| <= 2 && (o.arrived ==> Last(stack).ArriveShard? || Last(stack).ArriveNode?)
            && (o.arrived ==> |stack| > 1 && o.push == [] && Tokens(stack[|stack| - 2]) == multiset{}
                              && Tokens(Resume(stack[|stack| - 2])) == Gain(Last(stack), o))
  {
    hide Perform, Tokens, Resume, Gain;
    var stack, o := sys.threads[t], Perform(sys, Last(sys.threads[t]), ch);
    OutcomeShape(sys, Last(stack), ch);
    if o.arrived {
      assert StartsCall(stack[0]);
      CallerGains(Last(stack), o, stack[|stack| - 2]);
    }
  }

  lemma RunDelta(sys: Sys, t: nat, ch: Choice)
    requires Enabled(sys, Run(t, ch)) && StackOk(sys.nodes, sys.threads[t])
    ensures Delta(sys, t, ch)
  {
    hide Perform, StackOk, Tokens, Resume, Safe, Allowed, ThreadTokens;
    var stack := sys.threads[t];
    var f := Last(stack);
    var o := Perform(sys, f, ch);
    ArrivalReturns(sys, t, ch);
    FrameHolds(sys.threads, t, |stack| - 1);
    if o.arrived {
      var base, w := stack[..|stack| - 2], stack[|stack| - 2];
      assert stack == base + [w, f];
      assert Below(Front(stack), o.arrived) + o.push == base + [Resume(w)];
      ReplaceTop(sys.threads, t, base, [w, f], [Resume(w)]);
    } else {
      assert stack == Front(stack) + [f];
      ReplaceTop(sys.threads, t, Front(stack), [f], o.push);
    }
  }

  // ---- Balance of one unit ----------------------------------------------------------------------------

  /** How many of a unit a frame owns. */
  function Owned(f: Frame, unit: Token): int {
    match f
    case ArriveShard(n, _, _, pc) => One(pc.Cas? && unit == NodeUnit(n))
    case ArriveNode(n, pc) => One(pc.NCas? && unit == KidUnit(pc.p, pc.index))
    case DepartShard(n, s, u, _) => One(unit == UnitToken(n, s, u))
    case DepartNode(n, _) => One(unit == NodeUnit(n))
    case _ => 0
  }

  function OwnedFew(frames: seq<Frame>, unit: Token): int
    requires |frames| <= 2
  {
    if |frames| == 0 then 0 else if |frames| == 1 then Owned(frames[0], unit) else Owned(frames[0], unit) + Owned(frames[1], unit)
  }

  lemma MustStopAllUnits(work: set<nat>, unit: Token)
    requires IsUnit(unit)
    ensures MustStopAll(work)[unit] == 0
  {
  }

  lemma StopOwnsNothing(n: nat, pc: StopPc, unit: Token)
    requires IsUnit(unit)
    ensures StopTokens(n, pc)[unit] == 0
  {
    hide MustStopAll;
    if pc.Snapshot? || pc.Descend? { MustStopAllUnits(pc.work, unit); }
    match pc
    case Begin =>
    case Latch(_, _) =>
    case Notify(_) =>
    case Snapshot(_, _, _) =>
    case Descend(_, _) =>
    case Zero =>
  }

  lemma TokensOwned(f: Frame, unit: Token)
    requires IsUnit(unit)
    ensures Tokens(f)[unit] == Owned(f, unit)
  {
    hide StopTokens, Just, If;
    match f
    case ArriveShard(n, _, _, pc) => IfCount(pc.Cas?, NodeUnit(n), unit);
    case ArriveNode(_, pc) => if pc.NCas? { JustCount(KidUnit(pc.p, pc.index), unit); }
    case DepartShard(n, s, u, _) => JustCount(UnitToken(n, s, u), unit);
    case FlushIfAlive(n, s) => JustCount(MustFlush(n, s), unit);
    case Flush(n, s) => JustCount(MustFlush(n, s), unit);
    case DepartNode(n, _) => JustCount(NodeUnit(n), unit);
    case NotifyZero(n, left) =>
      JustCount(MustNotify(n), unit);
      JustCount(MustRelease(n, left), unit);
    case Release(n, left) => JustCount(MustRelease(n, left), unit);
    case Stop(n, pc) => StopOwnsNothing(n, pc, unit);
    case NewChild(_, pc) =>
      if !pc.Alloc? {
        JustCount(MustRegister(pc.child), unit);
        JustCount(MustStop(pc.child), unit);
      }
    case Collect(n, _) => JustCount(Collecting(n), unit);
    case Probe(_, _, _) =>
  }

  lemma FewOwned(frames: seq<Frame>, unit: Token)
    requires IsUnit(unit) && |frames| <= 2
    ensures Few(frames)[unit] == OwnedFew(frames, unit)
  {
    hide Tokens, Owned;
    if |frames| > 0 { TokensOwned(frames[0], unit); }
    if |frames| > 1 { TokensOwned(frames[1], unit); }
  }

  function Guarding(guards: multiset<Home>, unit: Token): int {
    if unit.LocalUnit? then guards[Home(unit.n, unit.s)] else 0
  }

  /** The change of one counter from `nodes` to `nodes'` matches that of its units' owners, where
      calls give up `taken` and gain `given`. */
  ghost predicate MatchesAt(nodes: seq<Node>, nodes': seq<Node>, guards: multiset<Home>, guards': multiset<Home>,
                            taken: int, given: int, unit: Token) {
    Counter(nodes', unit) + Guarding(guards, unit) + WordTokens(nodes)[unit] + taken
    == Counter(nodes, unit) + Guarding(guards', unit) + WordTokens(nodes')[unit] + given
  }

  lemma CounterSetShard(nodes: seq<Node>, n: nat, s: nat, w: ShardWord, unit: Token)
    requires ValidShard(nodes, n, s)
    ensures Counter(SetShard(nodes, n, s, w), unit)
         == if unit == LocalUnit(n, s) then w.local else if unit == KidUnit(n, s) then w.kids else Counter(nodes, unit)
  {
  }

  lemma CounterSetNode(nodes: seq<Node>, n: nat, w: NodeWord, unit: Token)
    requires ValidNode(nodes, n)
    ensures Counter(SetNode(nodes, n, w), unit) == if unit == NodeUnit(n) then w.count else Counter(nodes, unit)
  {
  }

  lemma ShardMatches(nodes: seq<Node>, n: nat, s: nat, w': ShardWord, guards: multiset<Home>, guards': multiset<Home>,
                     taken: int, given: int, unit: Token)
    requires ValidShard(nodes, n, s)
    requires var w := nodes[n].shards[s].word;
             if unit == LocalUnit(n, s) then w'.local + Guarding(guards, unit) + taken == w.local + Guarding(guards', unit) + given
             else if unit == KidUnit(n, s) then w'.kids + taken == w.kids + given
             else if unit == NodeUnit(n) then One(w.arrived) + taken == One(w'.arrived) + given
             else Guarding(guards, unit) + taken == Guarding(guards', unit) + given
    ensures MatchesAt(nodes, SetShard(nodes, n, s, w'), guards, guards', taken, given, unit)
  {
    WordTokensSetShard(nodes, n, s, w', unit);
    CounterSetShard(nodes, n, s, w', unit);
    assert unit == LocalUnit(n, s) ==> Counter(nodes, unit) == nodes[n].shards[s].word.local;
    assert unit == KidUnit(n, s) ==> Counter(nodes, unit) == nodes[n].shards[s].word.kids;
    assert unit.KidUnit? || unit.NodeUnit? ==> Guarding(guards, unit) == Guarding(guards', unit) == 0;
    hide WordTokens, Counter, SetShard, Guarding;
  }

  lemma NodeMatches(nodes: seq<Node>, n: nat, w': NodeWord, guards: multiset<Home>, taken: int, given: int, unit: Token)
    requires ValidNode(nodes, n)
    requires var node := nodes[n];
             if unit == NodeUnit(n) then w'.count + taken == node.word.count + given
             else taken + One(Owning(node, node.word, unit)) == given + One(Owning(node, w', unit))
    ensures MatchesAt(nodes, SetNode(nodes, n, w'), guards, guards, taken, given, unit)
  {
    WordTokensSetNode(nodes, n, w', unit);
    CounterSetNode(nodes, n, w', unit);
    assert unit == NodeUnit(n) ==>
      Counter(nodes, unit) == nodes[n].word.count && !Owning(nodes[n], nodes[n].word, unit) && !Owning(nodes[n], w', unit);
    hide WordTokens, Counter, SetNode, Owning;
  }

  lemma NodeRecounts(nodes: seq<Node>, n: nat, w': NodeWord, guards: multiset<Home>, taken: int, given: int, unit: Token)
    requires ValidNode(nodes, n) && w'.arrived == nodes[n].word.arrived && w'.home == nodes[n].word.home
    requires given - taken == if unit == NodeUnit(n) then w'.count - nodes[n].word.count else 0
    ensures MatchesAt(nodes, SetNode(nodes, n, w'), guards, guards, taken, given, unit)
  {
    NodeMatches(nodes, n, w', guards, taken, given, unit);
  }

  /** An arrival of a child: its word takes over the unit of the parent shard. */
  lemma NodeArrives(nodes: seq<Node>, n: nat, stopped: bool, p: nat, index: nat, guards: multiset<Home>, unit: Token)
    requires IsChild(nodes, n) && nodes[n].link.parent == p && !nodes[n].word.arrived && nodes[n].word.count == 0
    ensures MatchesAt(nodes, SetNode(nodes, n, NodeWord(true, stopped, index, 1)), guards, guards,
                      One(unit == KidUnit(p, index)), One(unit == NodeUnit(n)), unit)
  {
    NodeMatches(nodes, n, NodeWord(true, stopped, index, 1), guards, One(unit == KidUnit(p, index)), One(unit == NodeUnit(n)), unit);
  }

  function Gained(f: Frame, o: Outcome, unit: Token): int {
    One(o.arrived && (unit == if f.ArriveShard? then KidUnit(f.n, f.s) else if f.ArriveNode? then NodeUnit(f.n) else unit))
  }

  /** What a frame's transition does to one counter, and to the owners of its units. */
  ghost predicate Balances(sys: Sys, f: Frame, o: Outcome, unit: Token) {
    |o.push| <= 2 && MatchesAt(sys.nodes, o.nodes, sys.guards, o.guards, Owned(f, unit), OwnedFew(o.push, unit) + Gained(f, o, unit), unit)
  }

  lemma Unchanged(nodes: seq<Node>, guards: multiset<Home>, held: int, unit: Token)
    ensures MatchesAt(nodes, nodes, guards, guards, held, held, unit)
  {
  }

  /** Changes that leave every word as it was. */
  lemma WordsKept(nodes: seq<Node>, nodes': seq<Node>, guards: multiset<Home>, held: int, unit: Token)
    requires |nodes'| == |nodes| && forall n :: 0 <= n < |nodes| ==> SameWords(nodes[n], nodes'[n])
    ensures MatchesAt(nodes, nodes', guards, guards, held, held, unit)
  {
    hide WordTokens;
    WordTokensFrame(nodes, nodes');
    assert unit.LocalUnit? || unit.KidUnit? ==> (unit.n < |nodes| ==> SameWords(nodes[unit.n], nodes'[unit.n]));
    assert unit.NodeUnit? ==> (unit.n < |nodes| ==> SameWords(nodes[unit.n], nodes'[unit.n]));
  }

  lemma NodeAdded(nodes: seq<Node>, link: Link, shards: nat, handles: nat, guards: multiset<Home>, held: int, unit: Token)
    ensures MatchesAt(nodes, nodes + [NewNode(link, shards, handles)], guards, guards, held, held, unit)
  {
    hide WordTokens;
    WordTokensNewNode(nodes, NewNode(link, shards, handles));
  }

  lemma ArriveShardCasBalances(sys: Sys, n: nat, s: nat, u: Unit, seen: ShardWord, ch: Choice, unit: Token)
    requires ValidShard(sys.nodes, n, s) && !seen.arrived
    ensures Balances(sys, ArriveShard(n, s, u, Cas(seen)), RunArriveShard(sys, n, s, u, Cas(seen), ch), unit)
  {
    hide WordTokens, MatchesAt, SetNode, SetShard;
    var f, o := ArriveShard(n, s, u, Cas(seen)), RunArriveShard(sys, n, s, u, Cas(seen), ch);
    if sys.nodes[n].shards[s].word == seen {
      ShardMatches(sys.nodes, n, s, Plus(seen.(arrived := true), u), sys.guards, o.guards, One(unit == NodeUnit(n)), Gained(f, o, unit), unit);
    } else {
      Unchanged(sys.nodes, sys.guards, One(unit == NodeUnit(n)), unit);
    }
  }

  /** An arrived shard counts one more unit: a guard, or a child that its caller owns. */
  lemma CountsUnit(nodes: seq<Node>, n: nat, s: nat, u: Unit, guards: multiset<Home>, unit: Token)
    requires ValidShard(nodes, n, s)
    ensures MatchesAt(nodes, SetShard(nodes, n, s, Plus(nodes[n].shards[s].word, u)), guards,
                      if u == Local then guards + multiset{Home(n, s)} else guards, 0, One(u == Kid && unit == KidUnit(n, s)), unit)
  {
    hide WordTokens, MatchesAt, SetShard;
    var guards' := if u == Local then guards + multiset{Home(n, s)} else guards;
    ShardMatches(nodes, n, s, Plus(nodes[n].shards[s].word, u), guards, guards', 0, One(u == Kid && unit == KidUnit(n, s)), unit);
  }

  lemma ArriveShardLoopBalances(sys: Sys, n: nat, s: nat, u: Unit, seen: ShardWord, ch: Choice, unit: Token)
    requires ValidShard(sys.nodes, n, s)
    ensures Balances(sys, ArriveShard(n, s, u, Loop(seen)), RunArriveShard(sys, n, s, u, Loop(seen), ch), unit)
  {
    hide WordTokens, MatchesAt, SetShard, Plus;
    if seen.arrived && sys.nodes[n].shards[s].word == seen && !ch.spurious {
      CountsUnit(sys.nodes, n, s, u, sys.guards, unit);
    } else {
      Unchanged(sys.nodes, sys.guards, 0, unit);
    }
  }

  lemma ArriveShardBalances(sys: Sys, n: nat, s: nat, u: Unit, pc: ShardPc, ch: Choice, unit: Token)
    requires ValidShard(sys.nodes, n, s) && (pc.Cas? ==> !pc.seen.arrived)
    ensures Balances(sys, ArriveShard(n, s, u, pc), RunArriveShard(sys, n, s, u, pc, ch), unit)
  {
    hide WordTokens, MatchesAt, SetShard;
    match pc
    case Load => Unchanged(sys.nodes, sys.guards, 0, unit);
    case Wait(_) => Unchanged(sys.nodes, sys.guards, 0, unit);
    case Loop(seen) => ArriveShardLoopBalances(sys, n, s, u, seen, ch, unit);
    case Cas(seen) => ArriveShardCasBalances(sys, n, s, u, seen, ch, unit);
  }

  lemma DepartShardBalances(sys: Sys, n: nat, s: nat, u: Unit, pinned: bool, unit: Token)
    requires ValidShard(sys.nodes, n, s)
    ensures Balances(sys, DepartShard(n, s, u, pinned), RunDepartShard(sys, n, s, u, pinned), unit)
  {
    hide WordTokens, MatchesAt, SetNode, SetShard;
    ShardMatches(sys.nodes, n, s, Minus(sys.nodes[n].shards[s].word, u), sys.guards, sys.guards, One(unit == UnitToken(n, s, u)), 0, unit);
  }

  lemma FlushBalances(sys: Sys, n: nat, s: nat, unit: Token)
    requires ValidShard(sys.nodes, n, s)
    ensures Balances(sys, Flush(n, s), RunFlush(sys, n, s), unit)
  {
    hide WordTokens, MatchesAt, SetNode, SetShard;
    if sys.nodes[n].shards[s].word == FLUSHABLE {
      ShardMatches(sys.nodes, n, s, FLUSHABLE.(arrived := false), sys.guards, sys.guards, 0, One(unit == NodeUnit(n)), unit);
    } else {
      Unchanged(sys.nodes, sys.guards, 0, unit);
    }
  }

  lemma ProbeLoopBalances(sys: Sys, n: nat, s: nat, seen: ShardWord, ch: Choice, unit: Token)
    requires ValidShard(sys.nodes, n, s)
    ensures Balances(sys, Probe(n, s, PLoop(seen)), RunProbe(sys, n, s, PLoop(seen), ch), unit)
  {
    hide WordTokens, MatchesAt, SetShard, Plus;
    if seen.arrived && sys.nodes[n].shards[s].word == seen && !ch.spurious {
      CountsUnit(sys.nodes, n, s, Local, sys.guards, unit);
    } else {
      Unchanged(sys.nodes, sys.guards, 0, unit);
    }
  }

  lemma ProbeBalances(sys: Sys, n: nat, s: nat, pc: ProbePc, ch: Choice, unit: Token)
    requires ValidShard(sys.nodes, n, s)
    ensures Balances(sys, Probe(n, s, pc), RunProbe(sys, n, s, pc, ch), unit)
  {
    hide WordTokens, MatchesAt, SetShard, Arrived;
    match pc
    case PLoad => Unchanged(sys.nodes, sys.guards, 0, unit);
    case Upgrade => Unchanged(sys.nodes, sys.guards, 0, unit);
    case PLoop(seen) => ProbeLoopBalances(sys, n, s, seen, ch, unit);
  }

  lemma ArriveNodeLoopBalances(sys: Sys, n: nat, seen: NodeWord, ch: Choice, unit: Token)
    requires ValidNode(sys.nodes, n)
    ensures Balances(sys, ArriveNode(n, NLoop(seen)), RunArriveNode(sys, n, NLoop(seen), ch), unit)
  {
    hide WordTokens, MatchesAt, SetNode;
    var word := sys.nodes[n].word;
    if (seen.arrived || sys.nodes[n].link.Root?) && word == seen && !ch.spurious {
      NodeRecounts(sys.nodes, n, word.(count := word.count + 1), sys.guards, 0, One(unit == NodeUnit(n)), unit);
    } else {
      Unchanged(sys.nodes, sys.guards, 0, unit);
    }
  }

  lemma ArriveNodeCasBalances(sys: Sys, n: nat, seen: NodeWord, p: nat, index: nat, ch: Choice, unit: Token)
    requires IsChild(sys.nodes, n) && sys.nodes[n].link.parent == p && !seen.arrived && seen.count == 0
    ensures Balances(sys, ArriveNode(n, NCas(seen, p, index)), RunArriveNode(sys, n, NCas(seen, p, index), ch), unit)
  {
    hide WordTokens, MatchesAt, SetNode;
    if sys.nodes[n].word == seen {
      NodeArrives(sys.nodes, n, seen.stopped, p, index, sys.guards, unit);
    } else {
      Unchanged(sys.nodes, sys.guards, One(unit == KidUnit(p, index)), unit);
    }
  }

  lemma ArriveNodeLoadBalances(sys: Sys, n: nat, ch: Choice, unit: Token)
    requires ValidNode(sys.nodes, n)
    ensures Balances(sys, ArriveNode(n, NLoad), RunArriveNode(sys, n, NLoad, ch), unit)
  {
    hide WordTokens, MatchesAt, SetNode;
    var word := sys.nodes[n].word;
    if sys.nodes[n].link.Root? {
      NodeRecounts(sys.nodes, n, word.(count := word.count + 1), sys.guards, 0, One(unit == NodeUnit(n)), unit);
    } else {
      Unchanged(sys.nodes, sys.guards, 0, unit);
    }
  }

  lemma ArriveNodeBalances(sys: Sys, n: nat, pc: NodePc, ch: Choice, unit: Token)
    requires FrameOk(sys.nodes, ArriveNode(n, pc))
    ensures Balances(sys, ArriveNode(n, pc), RunArriveNode(sys, n, pc, ch), unit)
  {
    hide WordTokens, MatchesAt, SetNode;
    match pc
    case NLoad => ArriveNodeLoadBalances(sys, n, ch, unit);
    case NWait(_, _, _) => Unchanged(sys.nodes, sys.guards, 0, unit);
    case NLoop(seen) => ArriveNodeLoopBalances(sys, n, seen, ch, unit);
    case NCas(seen, p, index) => ArriveNodeCasBalances(sys, n, seen, p, index, ch, unit);
  }

  lemma DepartNodeBalances(sys: Sys, n: nat, s: nat, unit: Token)
    requires ValidNode(sys.nodes, n)
    ensures Balances(sys, DepartNode(n, s), RunDepartNode(sys, n), unit)
  {
    hide WordTokens, MatchesAt, SetNode, SetShard;
    var word := sys.nodes[n].word;
    NodeRecounts(sys.nodes, n, word.(count := word.count - 1), sys.guards, One(unit == NodeUnit(n)), 0, unit);
  }

  lemma ReleaseBalances(sys: Sys, n: nat, left: NodeWord, unit: Token)
    requires IsChild(sys.nodes, n) && left.arrived && left.count == 0
    ensures Balances(sys, Release(n, left), RunRelease(sys, n, left), unit)
  {
    hide WordTokens, MatchesAt, SetNode, SetShard;
    if sys.nodes[n].word == left {
      NodeMatches(sys.nodes, n, EMPTY_NODE.(stopped := left.stopped), sys.guards, 0,
                  One(unit == KidUnit(sys.nodes[n].link.parent, left.home)), unit);
    } else {
      Unchanged(sys.nodes, sys.guards, 0, unit);
    }
  }

  lemma StopLatchBalances(sys: Sys, n: nat, i: nat, zero: bool, ch: Choice, unit: Token)
    requires ValidNode(sys.nodes, n)
    ensures Balances(sys, Stop(n, Latch(i, zero)), RunStop(sys, n, Latch(i, zero), ch), unit)
  {
    hide WordTokens, MatchesAt, SetShard;
    if i < |sys.nodes[n].shards| {
      ShardMatches(sys.nodes, n, i, sys.nodes[n].shards[i].word.(stopped := true), sys.guards, sys.guards, 0, 0, unit);
    } else {
      Unchanged(sys.nodes, sys.guards, 0, unit);
    }
  }

  lemma StopBalances(sys: Sys, n: nat, pc: StopPc, ch: Choice, unit: Token)
    requires ValidNode(sys.nodes, n)
    ensures Balances(sys, Stop(n, pc), RunStop(sys, n, pc, ch), unit)
  {
    hide WordTokens, MatchesAt, LiveChildren, NotifyAll, SetNode, RunLatch;
    var word := sys.nodes[n].word;
    match pc
    case Begin =>
      if word.stopped {
        Unchanged(sys.nodes, sys.guards, 0, unit);
      } else {
        NodeRecounts(sys.nodes, n, word.(stopped := true), sys.guards, 0, 0, unit);
      }
    case Latch(i, zero) => StopLatchBalances(sys, n, i, zero, ch, unit);
    case _ => Unchanged(sys.nodes, sys.guards, 0, unit);
  }

  lemma CollectBalances(sys: Sys, n: nat, pc: DropPc, unit: Token)
    requires Safe(sys.nodes, Collect(n, pc))
    ensures Balances(sys, Collect(n, pc), RunCollect(sys, n, pc), unit)
  {
    hide WordTokens, MatchesAt, SetNode, SetShard;
    match pc
    case DropLatch(i) =>
      if i < |sys.nodes[n].shards| {
        ShardMatches(sys.nodes, n, i, sys.nodes[n].shards[i].word.(stopped := true), sys.guards, sys.guards, 0, 0, unit);
      } else {
        Unchanged(sys.nodes, sys.guards, 0, unit);
      }
    case Deregister => WordsKept(sys.nodes, RunCollect(sys, n, pc).nodes, sys.guards, 0, unit);
    case Free => WordsKept(sys.nodes, SetLife(sys.nodes, n, Freed), sys.guards, 0, unit);
  }

  lemma NewChildBalances(sys: Sys, p: nat, pc: ChildPc, ch: Choice, unit: Token)
    requires Safe(sys.nodes, NewChild(p, pc))
    ensures Balances(sys, NewChild(p, pc), RunNewChild(sys, p, pc, ch), unit)
  {
    hide WordTokens, MatchesAt, SetNode, SetShard;
    match pc
    case Alloc(s) => NodeAdded(sys.nodes, Child(p, s, None), 1, 0, sys.guards, 0, unit);
    case Register(c) => WordsKept(sys.nodes, Registered(sys.nodes, p, c, ch.key), sys.guards, 0, unit);
    case Check(c) => Unchanged(sys.nodes, sys.guards, 0, unit);
    case Finish(c, _) => WordsKept(sys.nodes, SetHandles(sys.nodes, c, sys.nodes[c].handles + 1), sys.guards, 0, unit);
  }

  lemma RunBalances(sys: Sys, f: Frame, ch: Choice, unit: Token)
    requires FrameOk(sys.nodes, f) && Allowed(sys.nodes, f, ch)
    ensures Balances(sys, f, Perform(sys, f, ch), unit)
  {
    hide MatchesAt, RunArriveShard, RunArriveNode, RunDepartShard, RunFlush, RunDepartNode, RunRelease, RunStop;
    hide RunNewChild, RunCollect, RunProbe;
    match f
    case ArriveShard(n, s, u, pc) => ArriveShardBalances(sys, n, s, u, pc, ch, unit);
    case ArriveNode(n, pc) => ArriveNodeBalances(sys, n, pc, ch, unit);
    case DepartShard(n, s, u, pinned) => DepartShardBalances(sys, n, s, u, pinned, unit);
    case FlushIfAlive(_, _) => Unchanged(sys.nodes, sys.guards, 0, unit);
    case Flush(n, s) => FlushBalances(sys, n, s, unit);
    case DepartNode(n, s) => DepartNodeBalances(sys, n, s, unit);
    case NotifyZero(_, _) => Unchanged(sys.nodes, sys.guards, 0, unit);
    case Release(n, left) => ReleaseBalances(sys, n, left, unit);
    case Stop(n, pc) => StopBalances(sys, n, pc, ch, unit);
    case NewChild(p, pc) => NewChildBalances(sys, p, pc, ch, unit);
    case Collect(n, pc) => CollectBalances(sys, n, pc, unit);
    case Probe(n, s, pc) => ProbeBalances(sys, n, s, pc, ch, unit);
  }

  // ---- Every transition -------------------------------------------------------------------------------

  /** A new call's tokens are added to the total. */
  lemma SpawnDelta(threads: seq<seq<Frame>>, t: nat, f: Frame)
    requires t < |threads| && threads[t] == []
    ensures forall x :: ThreadTokens(threads[t := [f]])[x] == ThreadTokens(threads)[x] + Tokens(f)[x]
  {
    hide Tokens, ThreadTokens;
    assert threads[t] == [] + [] && [] + [f] == [f];
    ReplaceTop(threads, t, [], [], [f]);
  }

  /** A change that matches keeps the balance. */
  lemma MatchingKeepsBalance(sys: Sys, sys': Sys, taken: int, given: int, unit: Token)
    requires Balanced(sys.nodes, sys.guards, ThreadTokens(sys.threads)) && IsUnit(unit)
    requires ThreadTokens(sys'.threads)[unit] + taken == ThreadTokens(sys.threads)[unit] + given
    requires MatchesAt(sys.nodes, sys'.nodes, sys.guards, sys'.guards, taken, given, unit)
    ensures Counter(sys'.nodes, unit) == Owners(sys'.nodes, sys'.guards, ThreadTokens(sys'.threads), unit)
  {
    hide WordTokens, ThreadTokens, Counter;
    assert Counter(sys.nodes, unit) == Owners(sys.nodes, sys.guards, ThreadTokens(sys.threads), unit);
  }

  lemma RunKeepsBalance(sys: Sys, t: nat, ch: Choice, unit: Token)
    requires Enabled(sys, Run(t, ch)) && StackOk(sys.nodes, sys.threads[t]) && FrameOk(sys.nodes, Last(sys.threads[t]))
    requires Balanced(sys.nodes, sys.guards, ThreadTokens(sys.threads)) && IsUnit(unit)
    ensures var sys' := Advance(sys, t, ch);
            Counter(sys'.nodes, unit) == Owners(sys'.nodes, sys'.guards, ThreadTokens(sys'.threads), unit)
  {
    hide Perform, StackOk, FrameOk, Tokens, Few, ThreadTokens, Balanced, MatchesAt, Owned, OwnedFew, Owners;
    hide Counter, IsUnit, Safe, Allowed;
    var f, sys' := Last(sys.threads[t]), Advance(sys, t, ch);
    var o := Perform(sys, f, ch);
    RunDelta(sys, t, ch);
    RunBalances(sys, f, ch, unit);
    TokensOwned(f, unit);
    FewOwned(o.push, unit);
    assert ThreadTokens(sys'.threads)[unit] + Tokens(f)[unit] == ThreadTokens(sys.threads)[unit] + Few(o.push)[unit] + Gain(f, o)[unit];
    assert Gain(f, o)[unit] == Gained(f, o, unit);
    MatchingKeepsBalance(sys, sys', Owned(f, unit), OwnedFew(o.push, unit) + Gained(f, o, unit), unit);
  }

  lemma SpawnKeepsBalance(sys: Sys, sys': Sys, t: nat, f: Frame, unit: Token)
    requires t < |sys.threads| && sys.threads[t] == [] && sys'.threads == sys.threads[t := [f]]
    requires Balanced(sys.nodes, sys.guards, ThreadTokens(sys.threads)) && IsUnit(unit)
    requires MatchesAt(sys.nodes, sys'.nodes, sys.guards, sys'.guards, 0, Owned(f, unit), unit)
    ensures Counter(sys'.nodes, unit) == Owners(sys'.nodes, sys'.guards, ThreadTokens(sys'.threads), unit)
  {
    hide Tokens, ThreadTokens, Balanced, MatchesAt, Owned, Owners, Counter, IsUnit;
    SpawnDelta(sys.threads, t, f);
    TokensOwned(f, unit);
    MatchingKeepsBalance(sys, sys', 0, Owned(f, unit), unit);
  }

  lemma StackTop(nodes: seq<Node>, stack: seq<Frame>)
    requires StackOk(nodes, stack) && |stack| > 0
    ensures FrameOk(nodes, Last(stack))
  {
  }

  lemma OnlySpawned(sys: Sys, sys': Sys, t: nat, f: Frame, unit: Token)
    requires t < |sys.threads| && sys.threads[t] == [] && sys'.threads == sys.threads[t := [f]]
    requires sys'.nodes == sys.nodes && sys'.guards == sys.guards
    requires Balanced(sys.nodes, sys.guards, ThreadTokens(sys.threads)) && IsUnit(unit) && Owned(f, unit) == 0
    ensures Counter(sys'.nodes, unit) == Owners(sys'.nodes, sys'.guards, ThreadTokens(sys'.threads), unit)
  {
    hide Tokens, ThreadTokens, Balanced, MatchesAt, Owners, Counter, IsUnit, Owned;
    Unchanged(sys.nodes, sys.guards, 0, unit);
    SpawnKeepsBalance(sys, sys', t, f, unit);
  }

  lemma LifeMatches(nodes: seq<Node>, n: nat, life: Life, guards: multiset<Home>, unit: Token)
    requires ValidNode(nodes, n)
    ensures MatchesAt(nodes, SetLife(nodes, n, life), guards, guards, 0, 0, unit)
  {
    hide MatchesAt;
    WordsKept(nodes, SetLife(nodes, n, life), guards, 0, unit);
  }

  lemma HandlesMatch(nodes: seq<Node>, n: nat, handles: nat, guards: multiset<Home>, unit: Token)
    requires ValidNode(nodes, n)
    ensures MatchesAt(nodes, SetHandles(nodes, n, handles), guards, guards, 0, 0, unit)
  {
    hide MatchesAt;
    WordsKept(nodes, SetHandles(nodes, n, handles), guards, 0, unit);
  }

  /** A dropped guard's unit passes to its destructor. */
  lemma GuardLeaves(nodes: seq<Node>, guards: multiset<Home>, h: Home, unit: Token)
    requires h in guards
    ensures MatchesAt(nodes, nodes, guards, guards - multiset{h}, 0, One(unit == LocalUnit(h.node, h.shard)), unit)
  {
  }

  /** The balance of one unit after a call has started. */
  lemma CallKeepsBalance(sys: Sys, action: Action, unit: Token)
    requires Enabled(sys, action) && Balanced(sys.nodes, sys.guards, ThreadTokens(sys.threads)) && IsUnit(unit)
    requires action.StartGuard? || action.StartProbe? || action.StartStop? || action.StartChild? || action.StartCollect?
             || action.DropHandle? || action.DropGuard?
    ensures var sys' := Apply(sys, action); Counter(sys'.nodes, unit) == Owners(sys'.nodes, sys'.guards, ThreadTokens(sys'.threads), unit)
  {
    hide Perform, Tokens, ThreadTokens, WordTokens, Balanced, MatchesAt, Owners, Counter, IsUnit, Safe, Allowed;
    hide Unpinned;
    hide SetShard, SetLife, SetHandles, StepWaiter, SameWords;
    var sys' := Apply(sys, action);
    match action
    case StartCollect(t, n) =>
      LifeMatches(sys.nodes, n, Dropping, sys.guards, unit);
      SpawnKeepsBalance(sys, sys', t, Collect(n, DropLatch(0)), unit);
    case DropHandle(t, n) =>
      HandlesMatch(sys.nodes, n, sys.nodes[n].handles - 1, sys.guards, unit);
      if sys'.threads == sys.threads {
        MatchingKeepsBalance(sys, sys', 0, 0, unit);
      } else {
        SpawnKeepsBalance(sys, sys', t, Stop(n, Begin), unit);
      }
    case DropGuard(t, h) =>
      GuardLeaves(sys.nodes, sys.guards, h, unit);
      SpawnKeepsBalance(sys, sys', t, sys'.threads[t][0], unit);
    case StartGuard(t, _, _) => OnlySpawned(sys, sys', t, sys'.threads[t][0], unit);
    case StartProbe(t, _, _) => OnlySpawned(sys, sys', t, sys'.threads[t][0], unit);
    case StartStop(t, _) => OnlySpawned(sys, sys', t, sys'.threads[t][0], unit);
    case StartChild(t, _, _) => OnlySpawned(sys, sys', t, sys'.threads[t][0], unit);
  }

  lemma CloneMatches(nodes: seq<Node>, guards: multiset<Home>, h: Home, unit: Token)
    requires ValidShard(nodes, h.node, h.shard)
    ensures var nodes' := SetShard(nodes, h.node, h.shard, Plus(nodes[h.node].shards[h.shard].word, Local));
            MatchesAt(nodes, nodes', guards, guards + multiset{h}, 0, 0, unit)
  {
    hide MatchesAt, SetShard;
    CountsUnit(nodes, h.node, h.shard, Local, guards, unit);
  }

  lemma BalancedStepAt(sys: Sys, action: Action, unit: Token)
    requires Enabled(sys, action) && Stacks(sys.nodes, sys.threads)
    requires Balanced(sys.nodes, sys.guards, ThreadTokens(sys.threads)) && IsUnit(unit)
    ensures var sys' := Apply(sys, action); Counter(sys'.nodes, unit) == Owners(sys'.nodes, sys'.guards, ThreadTokens(sys'.threads), unit)
  {
    hide Perform, StackOk, FrameOk, Tokens, ThreadTokens, WordTokens, Balanced, MatchesAt, Owners, Counter, IsUnit;
    hide Safe, Allowed, Unpinned;
    hide SetShard, SetLife, SetHandles, NewNode, StepWaiter, SameWords;
    var sys' := Apply(sys, action);
    match action
    case Run(t, ch) =>
      StackTop(sys.nodes, sys.threads[t]);
      RunKeepsBalance(sys, t, ch, unit);
    case CloneGuard(h) =>
      CloneMatches(sys.nodes, sys.guards, h, unit);
      MatchingKeepsBalance(sys, sys', 0, 0, unit);
    case StartRoot(shards) =>
      NodeAdded(sys.nodes, Root, shards, 1, sys.guards, 0, unit);
      MatchingKeepsBalance(sys, sys', 0, 0, unit);
    case CloneHandle(n) =>
      HandlesMatch(sys.nodes, n, sys.nodes[n].handles + 1, sys.guards, unit);
      MatchingKeepsBalance(sys, sys', 0, 0, unit);
    case StartWait(_, _) =>
      Unchanged(sys.nodes, sys.guards, 0, unit);
      MatchingKeepsBalance(sys, sys', 0, 0, unit);
    case RunWaiter(_) =>
      Unchanged(sys.nodes, sys.guards, 0, unit);
      MatchingKeepsBalance(sys, sys', 0, 0, unit);
    case DropWaiter(_) =>
      Unchanged(sys.nodes, sys.guards, 0, unit);
      MatchingKeepsBalance(sys, sys', 0, 0, unit);
    case _ => CallKeepsBalance(sys, action, unit);
  }

  /** Every transition keeps every counter equal to the number of its owners. */
  lemma BalancedStep(sys: Sys, action: Action)
    requires Enabled(sys, action) && Stacks(sys.nodes, sys.threads) && Balanced(sys.nodes, sys.guards, ThreadTokens(sys.threads))
    ensures var sys' := Apply(sys, action); Balanced(sys'.nodes, sys'.guards, ThreadTokens(sys'.threads))
  {
    var sys' := Apply(sys, action);
    forall unit | IsUnit(unit)
      ensures Counter(sys'.nodes, unit) == Owners(sys'.nodes, sys'.guards, ThreadTokens(sys'.threads), unit)
    {
      BalancedStepAt(sys, action, unit);
    }
  }
}
