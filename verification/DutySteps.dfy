/** Every change that a call puts off stays owed by some call until it has been made: flushes,
    releases, latches, stops of children, registrations and collections. */
module DutySteps {
  import opened Memory
  import opened Protocol
  import opened Ledger
  import opened LedgerSteps
  import opened Invariant
  import opened MemorySteps
  import opened StackSteps

  // ---- What one frame owes ----------------------------------------------------------------------------

  function StopDebt(n: nat, pc: StopPc, x: Token): nat {
    match pc
    case Begin => One(x == MustStop(n))
    case Latch(_, zero) => One(x == MustLatch(n)) + One(x == MustSignal(n)) + One(x == MustSnapshot(n, 0)) + One(zero && x == MustNotify(n))
    case Notify(zero) => One(x == MustSignal(n)) + One(x == MustSnapshot(n, 0)) + One(zero && x == MustNotify(n))
    case Snapshot(i, work, zero) => One(x == MustSnapshot(n, i)) + One(x.MustStop? && x.n in work) + One(zero && x == MustNotify(n))
    case Descend(work, zero) => One(x.MustStop? && x.n in work) + One(zero && x == MustNotify(n))
    case Zero => One(x == MustNotify(n))
  }

  /** How often a frame owes a duty. */
  function Debt(f: Frame, x: Token): nat {
    match f
    case FlushIfAlive(n, s) => One(x == MustFlush(n, s))
    case Flush(n, s) => One(x == MustFlush(n, s))
    case NotifyZero(n, left) => One(x == MustNotify(n)) + One(x == MustRelease(n, left))
    case Release(n, left) => One(x == MustRelease(n, left))
    case Stop(n, pc) => StopDebt(n, pc, x)
    case NewChild(_, Register(c)) => One(x == MustRegister(c)) + One(x == MustStop(c))
    case NewChild(_, Check(c)) => One(x == MustStop(c))
    case Collect(n, _) => One(x == Collecting(n))
    case _ => 0
  }

  function DebtFew(frames: seq<Frame>, x: Token): nat
    requires |frames| <= 2
  {
    if |frames| == 0 then 0 else if |frames| == 1 then Debt(frames[0], x) else Debt(frames[0], x) + Debt(frames[1], x)
  }

  lemma MustStopAllDebt(work: set<nat>, x: Token)
    ensures MustStopAll(work)[x] == One(x.MustStop? && x.n in work)
  {
  }

  lemma LatchTokensDebt(n: nat, i: nat, zero: bool, x: Token)
    ensures StopTokens(n, Latch(i, zero))[x] == StopDebt(n, Latch(i, zero), x)
  {
    hide Just, If;
    JustCount(MustLatch(n), x);
    JustCount(MustSignal(n), x);
    JustCount(MustSnapshot(n, 0), x);
    IfCount(zero, MustNotify(n), x);
  }

  lemma StopTokensDebt(n: nat, pc: StopPc, x: Token)
    ensures StopTokens(n, pc)[x] == StopDebt(n, pc, x)
  {
    hide Just, If, MustStopAll;
    match pc
    case Begin => JustCount(MustStop(n), x);
    case Latch(i, zero) => LatchTokensDebt(n, i, zero, x);
    case Notify(zero) =>
      JustCount(MustSignal(n), x);
      JustCount(MustSnapshot(n, 0), x);
      IfCount(zero, MustNotify(n), x);
    case Snapshot(i, work, zero) =>
      JustCount(MustSnapshot(n, i), x);
      MustStopAllDebt(work, x);
      IfCount(zero, MustNotify(n), x);
    case Descend(work, zero) =>
      MustStopAllDebt(work, x);
      IfCount(zero, MustNotify(n), x);
    case Zero => JustCount(MustNotify(n), x);
  }

  lemma TokensDebt(f: Frame, x: Token)
    requires !IsUnit(x)
    ensures Tokens(f)[x] == Debt(f, x)
  {
    hide Just, If, StopTokens, StopDebt;
    match f
    case ArriveShard(n, _, _, pc) => IfCount(pc.Cas?, NodeUnit(n), x);
    case ArriveNode(n, pc) => if pc.NCas? { JustCount(KidUnit(pc.p, pc.index), x); }
    case DepartShard(n, s, unit, _) => JustCount(UnitToken(n, s, unit), x);
    case FlushIfAlive(n, s) => JustCount(MustFlush(n, s), x);
    case Flush(n, s) => JustCount(MustFlush(n, s), x);
    case DepartNode(n, _) => JustCount(NodeUnit(n), x);
    case NotifyZero(n, left) =>
      JustCount(MustNotify(n), x);
      JustCount(MustRelease(n, left), x);
    case Release(n, left) => JustCount(MustRelease(n, left), x);
    case Stop(n, pc) => StopTokensDebt(n, pc, x);
    case NewChild(_, pc) =>
      if !pc.Alloc? {
        JustCount(MustRegister(pc.child), x);
        JustCount(MustStop(pc.child), x);
      }
    case Collect(n, _) => JustCount(Collecting(n), x);
    case Probe(_, _, _) =>
  }

  lemma FewDebt(frames: seq<Frame>, x: Token)
    requires !IsUnit(x) && |frames| <= 2
    ensures Few(frames)[x] == DebtFew(frames, x)
  {
    hide Tokens, Debt;
    if |frames| > 0 { TokensDebt(frames[0], x); }
    if |frames| > 1 { TokensDebt(frames[1], x); }
  }

  /** The debts of all stacks change by those of the frames that go and come. */
  ghost predicate DebtsMove(held: multiset<Token>, held': multiset<Token>, f: Frame, push: seq<Frame>)
    requires |push| <= 2
  {
    forall x :: !IsUnit(x) ==> Debt(f, x) <= held[x] && held'[x] + Debt(f, x) == held[x] + DebtFew(push, x)
  }

  lemma RunDebts(sys: Sys, t: nat, ch: Choice)
    requires Enabled(sys, Run(t, ch)) && StackOk(sys.nodes, sys.threads[t])
    ensures var f := Last(sys.threads[t]);
            |Perform(sys, f, ch).push| <= 2
            && DebtsMove(ThreadTokens(sys.threads), ThreadTokens(Advance(sys, t, ch).threads), f, Perform(sys, f, ch).push)
  {
    hide Perform, StackOk, Tokens, Few, Debt, DebtFew, ThreadTokens, Safe, Allowed;
    var f, held, held' := Last(sys.threads[t]), ThreadTokens(sys.threads), ThreadTokens(Advance(sys, t, ch).threads);
    var o := Perform(sys, f, ch);
    RunDelta(sys, t, ch);
    forall x | !IsUnit(x) ensures Debt(f, x) <= held[x] && held'[x] + Debt(f, x) == held[x] + DebtFew(o.push, x) {
      TokensDebt(f, x);
      FewDebt(o.push, x);
      assert held'[x] + Tokens(f)[x] == held[x] + Few(o.push)[x] + Gain(f, o)[x];
    }
  }

  // ---- Goals ------------------------------------------------------------------------------------------

  /** After a transition from `nodes` to `nodes'` in which `f` gives way to `push`: every need that
      exists afterwards is owed by a pushed frame, or existed before and was not owed by `f`. */
  ghost predicate FlushGoal(nodes: seq<Node>, nodes': seq<Node>, f: Frame, push: seq<Frame>, n: nat, s: nat)
    requires |push| <= 2
  {
    NeedsFlush(nodes', n, s) ==> DebtFew(push, MustFlush(n, s)) > 0 || (NeedsFlush(nodes, n, s) && Debt(f, MustFlush(n, s)) == 0)
  }

  ghost predicate ReleaseGoal(nodes: seq<Node>, nodes': seq<Node>, f: Frame, push: seq<Frame>, n: nat)
    requires |push| <= 2
  {
    NeedsRelease(nodes', n) ==>
      var x := MustRelease(n, nodes'[n].word);
      DebtFew(push, x) > 0 || (NeedsRelease(nodes, n) && nodes'[n].word == nodes[n].word && Debt(f, x) == 0)
  }

  ghost predicate LatchGoal(nodes: seq<Node>, nodes': seq<Node>, f: Frame, push: seq<Frame>, n: nat, s: nat)
    requires |push| <= 2
  {
    NeedsLatch(nodes', n, s) ==> DebtFew(push, MustLatch(n)) > 0 || (NeedsLatch(nodes, n, s) && Debt(f, MustLatch(n)) == 0)
  }

  ghost predicate StopGoal(nodes: seq<Node>, nodes': seq<Node>, held: multiset<Token>, f: Frame, push: seq<Frame>, c: nat)
    requires |push| <= 2
  {
    NeedsStop(nodes', c) ==>
      var p, s := nodes'[c].link.parent, nodes'[c].link.shard;
      || DebtFew(push, MustStop(c)) > 0
      || (exists i :: 0 <= i <= s && DebtFew(push, MustSnapshot(p, i)) > 0)
      || (MustStop(c) in held && Debt(f, MustStop(c)) == 0)
      || (NeedsStop(nodes, c) && nodes[c].link.parent == p && nodes[c].link.shard == s
          && Debt(f, MustStop(c)) == 0 && forall i :: 0 <= i <= s ==> Debt(f, MustSnapshot(p, i)) == 0)
  }

  ghost predicate KeyGoal(nodes: seq<Node>, nodes': seq<Node>, f: Frame, push: seq<Frame>, c: nat)
    requires |push| <= 2
  {
    One(NeedsKey(nodes', c)) + Debt(f, MustRegister(c)) == One(NeedsKey(nodes, c)) + DebtFew(push, MustRegister(c))
  }

  ghost predicate CollectGoal(nodes: seq<Node>, nodes': seq<Node>, f: Frame, push: seq<Frame>, n: nat)
    requires |push| <= 2
  {
    One(NeedsCollect(nodes', n)) + Debt(f, Collecting(n)) == One(NeedsCollect(nodes, n)) + DebtFew(push, Collecting(n))
  }

  ghost predicate Goals(nodes: seq<Node>, nodes': seq<Node>, held: multiset<Token>, f: Frame, push: seq<Frame>, n: nat, s: nat) {
    && |push| <= 2
    && FlushGoal(nodes, nodes', f, push, n, s) && ReleaseGoal(nodes, nodes', f, push, n) && LatchGoal(nodes, nodes', f, push, n, s)
    && StopGoal(nodes, nodes', held, f, push, n) && KeyGoal(nodes, nodes', f, push, n) && CollectGoal(nodes, nodes', f, push, n)
  }

  lemma ReleaseAndStopKept(nodes: seq<Node>, nodes': seq<Node>, held: multiset<Token>, held': multiset<Token>, f: Frame, push: seq<Frame>)
    requires ReleasesOwed(nodes, held) && StopsOwed(nodes, held) && |push| <= 2 && DebtsMove(held, held', f, push)
    requires forall n: nat, s: nat :: Goals(nodes, nodes', held, f, push, n, s)
    ensures ReleasesOwed(nodes', held') && StopsOwed(nodes', held')
  {
    hide Debt, DebtFew, FlushGoal, LatchGoal, KeyGoal, CollectGoal;
    forall n: nat | NeedsRelease(nodes', n) ensures MustRelease(n, nodes'[n].word) in held' {
      assert Goals(nodes, nodes', held, f, push, n, 0);
    }
    forall c: nat | NeedsStop(nodes', c) ensures MustStop(c) in held' || SnapshotOwed(held', nodes'[c].link.parent, nodes'[c].link.shard) {
      assert Goals(nodes, nodes', held, f, push, c, 0);
      var p, s := nodes'[c].link.parent, nodes'[c].link.shard;
      if i :| 0 <= i <= s && DebtFew(push, MustSnapshot(p, i)) > 0 {
        assert MustSnapshot(p, i) in held';
      } else if NeedsStop(nodes, c) && SnapshotOwed(held, p, s) && nodes[c].link.parent == p && nodes[c].link.shard == s
                && forall i :: 0 <= i <= s ==> Debt(f, MustSnapshot(p, i)) == 0 {
        var i :| 0 <= i <= s && MustSnapshot(p, i) in held;
        assert MustSnapshot(p, i) in held';
      }
    }
  }

  /** Goals met at every node and shard keep every duty owed. */
  lemma GoalsKeepDuties(nodes: seq<Node>, nodes': seq<Node>, held: multiset<Token>, held': multiset<Token>, f: Frame, push: seq<Frame>)
    requires Duties(nodes, held) && |push| <= 2 && DebtsMove(held, held', f, push)
    requires forall n: nat, s: nat :: Goals(nodes, nodes', held, f, push, n, s)
    ensures Duties(nodes', held')
  {
    hide Debt, DebtFew, NeedsFlush, NeedsRelease, NeedsLatch, NeedsStop, NeedsKey, NeedsCollect;
    forall n: nat, s: nat | NeedsFlush(nodes', n, s) ensures MustFlush(n, s) in held' {
      assert Goals(nodes, nodes', held, f, push, n, s);
    }
    forall n: nat, s: nat | NeedsLatch(nodes', n, s) ensures MustLatch(n) in held' {
      assert Goals(nodes, nodes', held, f, push, n, s);
    }
    forall n: nat ensures held'[MustRegister(n)] == One(NeedsKey(nodes', n)) && held'[Collecting(n)] == One(NeedsCollect(nodes', n)) {
      assert Goals(nodes, nodes', held, f, push, n, 0);
    }
    ReleaseAndStopKept(nodes, nodes', held, held', f, push);
  }

  // ---- One frame --------------------------------------------------------------------------------------

  lemma NeedsInside(nodes: seq<Node>, n: nat)
    ensures NeedsRelease(nodes, n) || NeedsStop(nodes, n) ==> IsChild(nodes, n)
  {
  }

  lemma ShardKeepsNeeds(nodes: seq<Node>, n: nat, i: nat, w: ShardWord, c: nat)
    requires ValidShard(nodes, n, i)
    ensures var nodes' := SetShard(nodes, n, i, w);
            && (NeedsStop(nodes', c) <==> NeedsStop(nodes, c)) && (NeedsRelease(nodes', c) <==> NeedsRelease(nodes, c))
            && (NeedsKey(nodes', c) <==> NeedsKey(nodes, c)) && (NeedsCollect(nodes', c) <==> NeedsCollect(nodes, c))
            && |nodes'| == |nodes| && (c < |nodes| ==> nodes'[c].link == nodes[c].link && nodes'[c].word == nodes[c].word)
  {
  }

  /** A frame that owes nothing gives way to frames that are not to register or collect the node,
      while the needs stay. */
  lemma IdleGoals(nodes: seq<Node>, nodes': seq<Node>, held: multiset<Token>, f: Frame, push: seq<Frame>, n: nat, s: nat)
    requires |push| <= 2 && (forall x :: Debt(f, x) == 0) && DebtFew(push, MustRegister(n)) == 0 && DebtFew(push, Collecting(n)) == 0
    requires NeedsFlush(nodes', n, s) ==> NeedsFlush(nodes, n, s)
    requires NeedsRelease(nodes', n) ==> NeedsRelease(nodes, n) && nodes'[n].word == nodes[n].word
    requires NeedsLatch(nodes', n, s) ==> NeedsLatch(nodes, n, s)
    requires NeedsStop(nodes', n) ==>
               NeedsStop(nodes, n) && nodes'[n].link.parent == nodes[n].link.parent && nodes'[n].link.shard == nodes[n].link.shard
    requires NeedsKey(nodes', n) <==> NeedsKey(nodes, n)
    requires NeedsCollect(nodes', n) <==> NeedsCollect(nodes, n)
    ensures Goals(nodes, nodes', held, f, push, n, s)
  {
    hide Debt, DebtFew, NeedsFlush, NeedsLatch, NeedsKey, NeedsCollect;
  }

  lemma ArriveShardGoals(sys: Sys, held: multiset<Token>, n: nat, s: nat, u: Unit, pc: ShardPc, ch: Choice, a: nat, b: nat)
    requires FrameOk(sys.nodes, ArriveShard(n, s, u, pc)) && sys.nodes[n].shards[s].word.local >= 0 && sys.nodes[n].shards[s].word.kids >= 0
    ensures var o := RunArriveShard(sys, n, s, u, pc, ch);
            Goals(sys.nodes, o.nodes, held, ArriveShard(n, s, u, pc), o.push, a, b)
  {
    hide Goals;
    var o := RunArriveShard(sys, n, s, u, pc, ch);
    IdleGoals(sys.nodes, o.nodes, held, ArriveShard(n, s, u, pc), o.push, a, b);
  }

  lemma ArriveNodeGoals(sys: Sys, held: multiset<Token>, n: nat, pc: NodePc, ch: Choice, a: nat, b: nat)
    requires FrameOk(sys.nodes, ArriveNode(n, pc)) && sys.nodes[n].word.count >= 0
    ensures var o := RunArriveNode(sys, n, pc, ch);
            Goals(sys.nodes, o.nodes, held, ArriveNode(n, pc), o.push, a, b)
  {
    hide Goals;
    var o := RunArriveNode(sys, n, pc, ch);
    IdleGoals(sys.nodes, o.nodes, held, ArriveNode(n, pc), o.push, a, b);
  }

  /** A call that owes only flushes gives way to calls that owe only flushes and releases. */
  lemma DepartShardGoals(sys: Sys, held: multiset<Token>, n: nat, s: nat, u: Unit, pinned: bool, a: nat, b: nat)
    requires ValidShard(sys.nodes, n, s)
    ensures var o := RunDepartShard(sys, n, s, u, pinned);
            Goals(sys.nodes, o.nodes, held, DepartShard(n, s, u, pinned), o.push, a, b)
  {
  }

  lemma FlushGoals(sys: Sys, held: multiset<Token>, n: nat, s: nat, a: nat, b: nat)
    requires ValidShard(sys.nodes, n, s)
    ensures var o := RunFlush(sys, n, s);
            Goals(sys.nodes, o.nodes, held, Flush(n, s), o.push, a, b)
  {
  }

  lemma FlushIfAliveGoals(sys: Sys, held: multiset<Token>, n: nat, s: nat, ch: Choice, a: nat, b: nat)
    requires FrameOk(sys.nodes, FlushIfAlive(n, s))
    ensures Goals(sys.nodes, sys.nodes, held, FlushIfAlive(n, s), if sys.nodes[n].life.Live? then [Flush(n, s)] else [], a, b)
  {
  }

  lemma DepartNodeGoals(sys: Sys, held: multiset<Token>, n: nat, s: nat, a: nat, b: nat)
    requires ValidShard(sys.nodes, n, s) && sys.nodes[n].word.count > 0
    ensures var o := RunDepartNode(sys, n);
            Goals(sys.nodes, o.nodes, held, DepartNode(n, s), o.push, a, b)
  {
  }

  lemma NotifyZeroGoals(sys: Sys, held: multiset<Token>, n: nat, left: NodeWord, a: nat, b: nat)
    requires ValidNode(sys.nodes, n)
    ensures Goals(sys.nodes, sys.nodes, held, NotifyZero(n, left), RunNotifyZero(sys, n, left).push, a, b)
  {
    hide NotifyAll;
  }

  lemma ReleaseGoals(sys: Sys, held: multiset<Token>, n: nat, left: NodeWord, a: nat, b: nat)
    requires IsChild(sys.nodes, n)
    ensures var o := RunRelease(sys, n, left);
            Goals(sys.nodes, o.nodes, held, Release(n, left), o.push, a, b)
  {
  }

  lemma ProbeGoals(sys: Sys, held: multiset<Token>, n: nat, s: nat, pc: ProbePc, ch: Choice, a: nat, b: nat)
    requires ValidShard(sys.nodes, n, s) && sys.nodes[n].shards[s].word.local >= 0
    ensures var o := RunProbe(sys, n, s, pc, ch);
            Goals(sys.nodes, o.nodes, held, Probe(n, s, pc), o.push, a, b)
  {
    hide Goals;
    var o := RunProbe(sys, n, s, pc, ch);
    IdleGoals(sys.nodes, o.nodes, held, Probe(n, s, pc), o.push, a, b);
  }

  lemma BeginGoals(sys: Sys, held: multiset<Token>, n: nat, ch: Choice, a: nat, b: nat)
    requires ValidNode(sys.nodes, n) && (NeedsRelease(sys.nodes, n) ==> sys.nodes[n].word.stopped)
    ensures var o := RunStop(sys, n, Begin, ch);
            Goals(sys.nodes, o.nodes, held, Stop(n, Begin), o.push, a, b)
  {
    var push := RunStop(sys, n, Begin, ch).push;
    assert push != [] ==> DebtFew(push, MustSnapshot(n, 0)) > 0;
  }

  lemma LatchStopGoal(sys: Sys, held: multiset<Token>, n: nat, i: nat, zero: bool, ch: Choice, a: nat)
    requires FrameOk(sys.nodes, Stop(n, Latch(i, zero)))
    ensures RunStop(sys, n, Latch(i, zero), ch).push != [] && |RunStop(sys, n, Latch(i, zero), ch).push| <= 2
    ensures var o := RunStop(sys, n, Latch(i, zero), ch);
            StopGoal(sys.nodes, o.nodes, held, Stop(n, Latch(i, zero)), o.push, a)
  {
    hide NeedsStop, SetShard, AllStopped;
    if i < |sys.nodes[n].shards| { ShardKeepsNeeds(sys.nodes, n, i, sys.nodes[n].shards[i].word.(stopped := true), a); }
    NeedsInside(sys.nodes, a);
    var push := RunStop(sys, n, Latch(i, zero), ch).push;
    assert DebtFew(push, MustSnapshot(n, 0)) > 0;
  }

  lemma LatchNodeGoals(sys: Sys, n: nat, i: nat, zero: bool, ch: Choice, a: nat)
    requires FrameOk(sys.nodes, Stop(n, Latch(i, zero))) && |RunStop(sys, n, Latch(i, zero), ch).push| <= 2
    ensures var o := RunStop(sys, n, Latch(i, zero), ch);
            && ReleaseGoal(sys.nodes, o.nodes, Stop(n, Latch(i, zero)), o.push, a) && KeyGoal(sys.nodes, o.nodes, Stop(n, Latch(i, zero)), o.push, a)
            && CollectGoal(sys.nodes, o.nodes, Stop(n, Latch(i, zero)), o.push, a)
  {
    hide SetShard, AllStopped, NeedsRelease, NeedsStop, NeedsKey, NeedsCollect;
    if i < |sys.nodes[n].shards| { ShardKeepsNeeds(sys.nodes, n, i, sys.nodes[n].shards[i].word.(stopped := true), a); }
    NeedsInside(sys.nodes, a);
  }

  lemma LatchGoals(sys: Sys, held: multiset<Token>, n: nat, i: nat, zero: bool, ch: Choice, a: nat, b: nat)
    requires FrameOk(sys.nodes, Stop(n, Latch(i, zero)))
    ensures var o := RunStop(sys, n, Latch(i, zero), ch);
            Goals(sys.nodes, o.nodes, held, Stop(n, Latch(i, zero)), o.push, a, b)
  {
    hide StopGoal, ReleaseGoal, KeyGoal, CollectGoal;
    LatchStopGoal(sys, held, n, i, zero, ch, a);
    LatchNodeGoals(sys, n, i, zero, ch, a);
  }

  lemma NotifyGoals(sys: Sys, held: multiset<Token>, n: nat, zero: bool, ch: Choice, a: nat, b: nat)
    requires ValidNode(sys.nodes, n)
    ensures Goals(sys.nodes, sys.nodes, held, Stop(n, Notify(zero)), RunStop(sys, n, Notify(zero), ch).push, a, b)
  {
    hide NotifyAll;
    var push := RunStop(sys, n, Notify(zero), ch).push;
    assert DebtFew(push, MustSnapshot(n, 0)) > 0;
  }

  /** A child whose shard is being read is found there, unless its creator is still to register it. */
  lemma SnapshotFinds(nodes: seq<Node>, n: nat, i: nat, c: nat)
    requires Registries(nodes) && ValidShard(nodes, n, i)
    requires NeedsStop(nodes, c) && nodes[c].link.parent == n && nodes[c].link.shard == i && nodes[c].link.key.Some?
    ensures c in LiveChildren(nodes, n, i)
  {
    assert Listed(nodes, c);
  }

  lemma SnapshotStopGoal(sys: Sys, held: multiset<Token>, n: nat, i: nat, work: set<nat>, zero: bool, ch: Choice, a: nat)
    requires Forest(sys.nodes) && Registries(sys.nodes) && ValidNode(sys.nodes, n) && i <= |sys.nodes[n].shards|
    requires NeedsKey(sys.nodes, a) ==> MustStop(a) in held
    ensures |RunStop(sys, n, Snapshot(i, work, zero), ch).push| <= 2
    ensures StopGoal(sys.nodes, sys.nodes, held, Stop(n, Snapshot(i, work, zero)), RunStop(sys, n, Snapshot(i, work, zero), ch).push, a)
  {
    hide Registries, LiveChildren;
    var push := RunStop(sys, n, Snapshot(i, work, zero), ch).push;
    if NeedsStop(sys.nodes, a) && sys.nodes[a].link.parent == n && i < |sys.nodes[n].shards| {
      if sys.nodes[a].link.shard == i && sys.nodes[a].link.key.Some? {
        SnapshotFinds(sys.nodes, n, i, a);
      } else if sys.nodes[a].link.shard > i {
        assert DebtFew(push, MustSnapshot(n, i + 1)) > 0;
      }
    }
  }

  lemma SnapshotGoals(sys: Sys, held: multiset<Token>, n: nat, i: nat, work: set<nat>, zero: bool, ch: Choice, a: nat, b: nat)
    requires Forest(sys.nodes) && Registries(sys.nodes) && FrameOk(sys.nodes, Stop(n, Snapshot(i, work, zero)))
    requires NeedsKey(sys.nodes, a) ==> MustStop(a) in held
    ensures Goals(sys.nodes, sys.nodes, held, Stop(n, Snapshot(i, work, zero)), RunStop(sys, n, Snapshot(i, work, zero), ch).push, a, b)
  {
    hide Registries, LiveChildren, AllStopped, ChildrenOf, StopGoal, NeedsFlush, NeedsRelease, NeedsLatch, Forest;
    SnapshotStopGoal(sys, held, n, i, work, zero, ch, a);
  }

  lemma DescendStopGoal(sys: Sys, held: multiset<Token>, n: nat, work: set<nat>, zero: bool, ch: Choice, a: nat)
    requires ValidNode(sys.nodes, n)
    ensures |RunStop(sys, n, Descend(work, zero), ch).push| <= 2
    ensures StopGoal(sys.nodes, sys.nodes, held, Stop(n, Descend(work, zero)), RunStop(sys, n, Descend(work, zero), ch).push, a)
  {
    hide NeedsStop;
    NeedsInside(sys.nodes, a);
  }

  lemma DescendGoals(sys: Sys, held: multiset<Token>, n: nat, work: set<nat>, zero: bool, ch: Choice, a: nat, b: nat)
    requires ValidNode(sys.nodes, n)
    ensures Goals(sys.nodes, sys.nodes, held, Stop(n, Descend(work, zero)), RunStop(sys, n, Descend(work, zero), ch).push, a, b)
  {
    hide StopGoal, NeedsFlush, NeedsRelease, NeedsLatch, NeedsStop, NeedsKey, NeedsCollect;
    NeedsInside(sys.nodes, a);
    DescendStopGoal(sys, held, n, work, zero, ch, a);
  }

  lemma ZeroGoals(sys: Sys, held: multiset<Token>, n: nat, ch: Choice, a: nat, b: nat)
    requires ValidNode(sys.nodes, n)
    ensures Goals(sys.nodes, sys.nodes, held, Stop(n, Zero), RunStop(sys, n, Zero, ch).push, a, b)
  {
    hide NotifyAll;
  }

  lemma AllocGoals(sys: Sys, held: multiset<Token>, p: nat, i: nat, ch: Choice, a: nat, b: nat)
    requires ValidNode(sys.nodes, p)
    ensures var o := RunNewChild(sys, p, Alloc(i), ch);
            Goals(sys.nodes, o.nodes, held, NewChild(p, Alloc(i)), o.push, a, b)
  {
  }

  lemma RegisterStopGoal(sys: Sys, held: multiset<Token>, p: nat, c: nat, ch: Choice, a: nat)
    requires Safe(sys.nodes, NewChild(p, Register(c)))
    ensures |RunNewChild(sys, p, Register(c), ch).push| <= 2
    ensures var o := RunNewChild(sys, p, Register(c), ch);
            StopGoal(sys.nodes, o.nodes, held, NewChild(p, Register(c)), o.push, a)
  {
  }

  lemma RegisterGoals(sys: Sys, held: multiset<Token>, p: nat, c: nat, ch: Choice, a: nat, b: nat)
    requires Safe(sys.nodes, NewChild(p, Register(c))) && sys.nodes[c].link.key.None?
    ensures var o := RunNewChild(sys, p, Register(c), ch);
            Goals(sys.nodes, o.nodes, held, NewChild(p, Register(c)), o.push, a, b)
  {
    hide StopGoal;
    RegisterStopGoal(sys, held, p, c, ch, a);
  }

  lemma CheckGoals(sys: Sys, held: multiset<Token>, p: nat, c: nat, ch: Choice, a: nat, b: nat)
    requires Safe(sys.nodes, NewChild(p, Check(c)))
    ensures var o := RunNewChild(sys, p, Check(c), ch);
            Goals(sys.nodes, o.nodes, held, NewChild(p, Check(c)), o.push, a, b)
  {
    hide NeedsFlush, NeedsRelease, NeedsLatch, NeedsKey, NeedsCollect;
    NeedsInside(sys.nodes, a);
  }

  lemma FinishGoals(sys: Sys, held: multiset<Token>, p: nat, c: nat, late: bool, ch: Choice, a: nat, b: nat)
    requires Safe(sys.nodes, NewChild(p, Finish(c, late)))
    ensures var o := RunNewChild(sys, p, Finish(c, late), ch);
            Goals(sys.nodes, o.nodes, held, NewChild(p, Finish(c, late)), o.push, a, b)
  {
  }

  lemma NewChildGoals(sys: Sys, held: multiset<Token>, p: nat, pc: ChildPc, ch: Choice, a: nat, b: nat)
    requires Safe(sys.nodes, NewChild(p, pc)) && (pc.Register? ==> sys.nodes[pc.child].link.key.None?)
    ensures var o := RunNewChild(sys, p, pc, ch);
            Goals(sys.nodes, o.nodes, held, NewChild(p, pc), o.push, a, b)
  {
    hide Goals, RunNewChild;
    match pc
    case Alloc(i) => AllocGoals(sys, held, p, i, ch, a, b);
    case Register(c) => RegisterGoals(sys, held, p, c, ch, a, b);
    case Check(c) => CheckGoals(sys, held, p, c, ch, a, b);
    case Finish(c, late) => FinishGoals(sys, held, p, c, late, ch, a, b);
  }

  lemma DropLatchNodeGoals(sys: Sys, held: multiset<Token>, n: nat, i: nat, a: nat)
    requires FrameOk(sys.nodes, Collect(n, DropLatch(i))) && sys.nodes[n].life.Dropping? && |RunCollect(sys, n, DropLatch(i)).push| <= 2
    ensures var f, o := Collect(n, DropLatch(i)), RunCollect(sys, n, DropLatch(i));
            && ReleaseGoal(sys.nodes, o.nodes, f, o.push, a) && StopGoal(sys.nodes, o.nodes, held, f, o.push, a)
            && KeyGoal(sys.nodes, o.nodes, f, o.push, a) && CollectGoal(sys.nodes, o.nodes, f, o.push, a)
  {
    hide Listed, AllStopped, SetShard, NeedsRelease, NeedsStop, NeedsKey, NeedsCollect;
    if i < |sys.nodes[n].shards| { ShardKeepsNeeds(sys.nodes, n, i, sys.nodes[n].shards[i].word.(stopped := true), a); }
    NeedsInside(sys.nodes, a);
  }

  lemma DropLatchGoals(sys: Sys, held: multiset<Token>, n: nat, i: nat, a: nat, b: nat)
    requires FrameOk(sys.nodes, Collect(n, DropLatch(i))) && sys.nodes[n].life.Dropping?
    ensures var o := RunCollect(sys, n, DropLatch(i));
            Goals(sys.nodes, o.nodes, held, Collect(n, DropLatch(i)), o.push, a, b)
  {
    hide Listed, ReleaseGoal, StopGoal, KeyGoal, CollectGoal;
    DropLatchNodeGoals(sys, held, n, i, a);
  }

  lemma ChildrenKeepNeeds(nodes: seq<Node>, p: nat, i: nat, children: map<nat, nat>, n: nat, s: nat)
    requires ValidShard(nodes, p, i)
    ensures var nodes' := SetChildren(nodes, p, i, children);
            && (NeedsFlush(nodes', n, s) <==> NeedsFlush(nodes, n, s)) && (NeedsRelease(nodes', n) <==> NeedsRelease(nodes, n))
            && (NeedsLatch(nodes', n, s) <==> NeedsLatch(nodes, n, s)) && (NeedsStop(nodes', n) <==> NeedsStop(nodes, n))
            && (NeedsKey(nodes', n) <==> NeedsKey(nodes, n)) && (NeedsCollect(nodes', n) <==> NeedsCollect(nodes, n))
            && |nodes'| == |nodes| && (n < |nodes| ==> nodes'[n].word == nodes[n].word && nodes'[n].link == nodes[n].link)
  {
  }

  lemma DeregisterGoals(sys: Sys, held: multiset<Token>, n: nat, a: nat, b: nat)
    requires FrameOk(sys.nodes, Collect(n, Deregister))
    ensures var o := RunCollect(sys, n, Deregister);
            Goals(sys.nodes, o.nodes, held, Collect(n, Deregister), o.push, a, b)
  {
    hide SetChildren, Listed, AllStopped, NeedsFlush, NeedsRelease, NeedsLatch, NeedsStop, NeedsKey, NeedsCollect;
    if sys.nodes[n].link.Child? {
      var p, i := sys.nodes[n].link.parent, sys.nodes[n].link.shard;
      ChildrenKeepNeeds(sys.nodes, p, i, sys.nodes[p].shards[i].children - {sys.nodes[n].link.key.value}, a, b);
    }
    NeedsInside(sys.nodes, a);
  }

  lemma FreeGoals(sys: Sys, held: multiset<Token>, n: nat, a: nat, b: nat)
    requires FrameOk(sys.nodes, Collect(n, Free)) && sys.nodes[n].life.Dropping?
    ensures var o := RunCollect(sys, n, Free);
            Goals(sys.nodes, o.nodes, held, Collect(n, Free), o.push, a, b)
  {
  }

  // ---- Every transition -------------------------------------------------------------------------------

  lemma ReleaseFrame(f: Frame, n: nat, left: NodeWord)
    requires MustRelease(n, left) in Tokens(f)
    ensures f == NotifyZero(n, left) || f == Release(n, left)
  {
    hide Tokens;
    TokensDebt(f, MustRelease(n, left));
  }

  /** A node that has not stopped is not about to leave its parent, unless it is being collected:
      the exchange that releases it can lose to an arrival or a departure, but not to a stop. */
  lemma ReleaseOnlyStopped(sys: Sys, n: nat)
    requires Inv(sys) && NeedsRelease(sys.nodes, n)
    ensures sys.nodes[n].word.stopped || !sys.nodes[n].life.Live?
  {
    hide ThreadTokens, Words, Latches, Registries, Balanced, Waiters, Lives, FlushesOwed, LatchesOwed, StopsOwed;
    hide RegistersOwed, CollectsOwed, Anchored, Calls;
    var x := MustRelease(n, sys.nodes[n].word);
    assert x in ThreadTokens(sys.threads);
    var t, k := HeldByFrame(sys.threads, x);
    ReleaseFrame(sys.threads[t][k], n, sys.nodes[n].word);
    assert StackOk(sys.nodes, sys.threads[t]);
    assert FrameOk(sys.nodes, sys.threads[t][k]);
  }

  /** The call that is to register a child is also to stop it. */
  lemma CreatorStops(sys: Sys, c: nat)
    requires RegistersOwed(sys.nodes, ThreadTokens(sys.threads)) && NeedsKey(sys.nodes, c)
    ensures MustStop(c) in ThreadTokens(sys.threads)
  {
    hide ThreadTokens, Tokens;
    var t, k := HeldByFrame(sys.threads, MustRegister(c));
    TokensDebt(sys.threads[t][k], MustRegister(c));
    TokensDebt(sys.threads[t][k], MustStop(c));
    FrameHolds(sys.threads, t, k);
  }

  /** What a frame's duties rely on. */
  ghost predicate DutyFacts(sys: Sys, held: multiset<Token>, f: Frame, ch: Choice, a: nat) {
    && Safe(sys.nodes, f) && Allowed(sys.nodes, f, ch) && Forest(sys.nodes) && Registries(sys.nodes) && FrameOk(sys.nodes, f)
    && (NeedsKey(sys.nodes, a) ==> MustStop(a) in held)
    && (f.ArriveShard? || f.Probe? ==> sys.nodes[f.n].shards[f.s].word.local >= 0 && sys.nodes[f.n].shards[f.s].word.kids >= 0)
    && (f.ArriveNode? ==> sys.nodes[f.n].word.count >= 0)
    && (f.DepartNode? ==> sys.nodes[f.n].word.count > 0)
    && (f.Stop? && f.stpc.Begin? && NeedsRelease(sys.nodes, f.n) ==> sys.nodes[f.n].word.stopped)
    && (f.NewChild? && f.cpc.Register? ==> sys.nodes[f.cpc.child].link.key.None?)
    && (f.Collect? ==> sys.nodes[f.n].life.Dropping?)
  }

  lemma StopGoals(sys: Sys, held: multiset<Token>, n: nat, pc: StopPc, ch: Choice, a: nat, b: nat)
    requires DutyFacts(sys, held, Stop(n, pc), ch, a)
    ensures var o := RunStop(sys, n, pc, ch);
            Goals(sys.nodes, o.nodes, held, Stop(n, pc), o.push, a, b)
  {
    hide Goals, LiveChildren, Forest, Registries, AllStopped, NotifyAll;
    match pc
    case Begin => BeginGoals(sys, held, n, ch, a, b);
    case Latch(i, zero) => LatchGoals(sys, held, n, i, zero, ch, a, b);
    case Notify(zero) => NotifyGoals(sys, held, n, zero, ch, a, b);
    case Snapshot(i, work, zero) => SnapshotGoals(sys, held, n, i, work, zero, ch, a, b);
    case Descend(work, zero) => DescendGoals(sys, held, n, work, zero, ch, a, b);
    case Zero => ZeroGoals(sys, held, n, ch, a, b);
  }

  lemma NotifyKeepsNodes(sys: Sys, n: nat, left: NodeWord)
    requires ValidNode(sys.nodes, n)
    ensures RunNotifyZero(sys, n, left).nodes == sys.nodes
  {
  }

  lemma CollectGoals(sys: Sys, held: multiset<Token>, n: nat, pc: DropPc, a: nat, b: nat)
    requires FrameOk(sys.nodes, Collect(n, pc)) && sys.nodes[n].life.Dropping?
    ensures var o := RunCollect(sys, n, pc);
            Goals(sys.nodes, o.nodes, held, Collect(n, pc), o.push, a, b)
  {
    hide Goals, RunCollect;
    match pc
    case DropLatch(i) => DropLatchGoals(sys, held, n, i, a, b);
    case Deregister => DeregisterGoals(sys, held, n, a, b);
    case Free => FreeGoals(sys, held, n, a, b);
  }

  lemma RunGoals(sys: Sys, held: multiset<Token>, f: Frame, ch: Choice, a: nat, b: nat)
    requires DutyFacts(sys, held, f, ch, a)
    ensures Goals(sys.nodes, Perform(sys, f, ch).nodes, held, f, Perform(sys, f, ch).push, a, b)
  {
    hide Goals, Forest, Registries, FrameOk, NeedsRelease, NeedsKey;
    hide RunArriveShard, RunArriveNode, RunDepartShard, RunFlush, RunDepartNode, RunNotifyZero, RunRelease, RunStop;
    hide RunNewChild, RunCollect, RunProbe;
    match f
    case ArriveShard(n, s, u, pc) => ArriveShardGoals(sys, held, n, s, u, pc, ch, a, b);
    case ArriveNode(n, pc) => ArriveNodeGoals(sys, held, n, pc, ch, a, b);
    case DepartShard(n, s, u, pinned) => DepartShardGoals(sys, held, n, s, u, pinned, a, b);
    case FlushIfAlive(n, s) => FlushIfAliveGoals(sys, held, n, s, ch, a, b);
    case Flush(n, s) => FlushGoals(sys, held, n, s, a, b);
    case DepartNode(n, s) => DepartNodeGoals(sys, held, n, s, a, b);
    case NotifyZero(n, left) =>
      NotifyKeepsNodes(sys, n, left);
      NotifyZeroGoals(sys, held, n, left, a, b);
    case Release(n, left) => ReleaseGoals(sys, held, n, left, a, b);
    case Stop(n, pc) => StopGoals(sys, held, n, pc, ch, a, b);
    case NewChild(p, pc) => NewChildGoals(sys, held, p, pc, ch, a, b);
    case Collect(n, pc) => CollectGoals(sys, held, n, pc, a, b);
    case Probe(n, s, pc) => ProbeGoals(sys, held, n, s, pc, ch, a, b);
  }

  /** Counters are never negative. */
  lemma CountersNatural(sys: Sys, unit: Token)
    requires Balanced(sys.nodes, sys.guards, ThreadTokens(sys.threads)) && IsUnit(unit)
    ensures Counter(sys.nodes, unit) >= 0
  {
    hide ThreadTokens, WordTokens, Counter;
  }

  /** Above a collection there is at most one departing call. */
  lemma CollectorsStack(nodes: seq<Node>, stack: seq<Frame>)
    requires StackOk(nodes, stack) && |stack| > 0 && stack[0].Collect?
    ensures |stack| <= 2 && (|stack| == 2 ==> Departing(stack[1]))
  {
    hide FrameOk, Touches, Anchored;
    assert |stack| > 1 ==> Calls(stack[0], stack[1]);
    assert |stack| > 2 ==> Calls(stack[1], stack[2]);
  }

  /** A call to stop a node keeps it alive. */
  lemma StopIsLive(sys: Sys, t: nat)
    requires Inv(sys) && t < |sys.threads| && |sys.threads[t]| > 0 && Last(sys.threads[t]).Stop?
    ensures var n := Last(sys.threads[t]).n; n < |sys.nodes| && sys.nodes[n].life.Live?
  {
    hide ThreadTokens, Balanced, Registries, Waiters, Lives, Latches, Words, Duties, FrameOk;
    var stack := sys.threads[t];
    assert StackOk(sys.nodes, stack);
    var k := |stack| - 1;
    assert stack[k].n in Touches(stack[k]);
    assert Anchored(sys.nodes, stack[0], stack[k].n);
    if stack[0].Collect? { CollectorsStack(sys.nodes, stack); }
  }

  lemma DutyFactsHold(sys: Sys, t: nat, ch: Choice, a: nat)
    requires Inv(sys) && Enabled(sys, Run(t, ch))
    ensures DutyFacts(sys, ThreadTokens(sys.threads), Last(sys.threads[t]), ch, a)
  {
    hide ThreadTokens, Balanced, Registries, Waiters, Lives, Latches, Calls, FlushesOwed, ReleasesOwed, LatchesOwed;
    hide StopsOwed, Tokens, StackOk, FrameOk;
    hide CollectsOwed, Uses;
    var f := Last(sys.threads[t]);
    TopFacts(sys, t);
    if NeedsKey(sys.nodes, a) { CreatorStops(sys, a); }
    TopArmed(sys, t, ch);
    if f.ArriveShard? || f.Probe? {
      CountersNatural(sys, LocalUnit(f.n, f.s));
      CountersNatural(sys, KidUnit(f.n, f.s));
    }
    if f.ArriveNode? { CountersNatural(sys, NodeUnit(f.n)); }
    if f.Stop? && f.stpc.Begin? && NeedsRelease(sys.nodes, f.n) {
      ReleaseOnlyStopped(sys, f.n);
      StopIsLive(sys, t);
    }
  }

  lemma RunDuties(sys: Sys, t: nat, ch: Choice)
    requires Inv(sys) && Enabled(sys, Run(t, ch))
    ensures Duties(Advance(sys, t, ch).nodes, ThreadTokens(Advance(sys, t, ch).threads))
  {
    hide ThreadTokens, Goals, Perform, Safe, Allowed, Words, Latches, Registries, Stacks, StackOk, Balanced, Duties;
    hide Waiters, Lives, DebtsMove, DutyFacts, FrameOk, Uses, CollectsOwed;
    var f, held, held' := Last(sys.threads[t]), ThreadTokens(sys.threads), ThreadTokens(Advance(sys, t, ch).threads);
    var o := Perform(sys, f, ch);
    TopFacts(sys, t);
    RunDebts(sys, t, ch);
    forall a: nat, b: nat ensures Goals(sys.nodes, o.nodes, held, f, o.push, a, b) {
      DutyFactsHold(sys, t, ch, a);
      RunGoals(sys, held, f, ch, a, b);
    }
    GoalsKeepDuties(sys.nodes, o.nodes, held, held', f, o.push);
  }

  // ---- Calls that start -------------------------------------------------------------------------------

  /** A frame that owes nothing, standing in for the empty stack of a call that starts. */
  const NOTHING := Probe(0, 0, PLoad)

  /** The frame, if any, that an action starts. */
  function Started(sys: Sys, action: Action): seq<Frame>
    requires Enabled(sys, action)
  {
    match action
    case StartGuard(t, _, _) => Apply(sys, action).threads[t]
    case StartProbe(t, _, _) => Apply(sys, action).threads[t]
    case StartStop(t, _) => Apply(sys, action).threads[t]
    case StartChild(t, _, _) => Apply(sys, action).threads[t]
    case StartCollect(t, _) => Apply(sys, action).threads[t]
    case DropHandle(t, _) => Apply(sys, action).threads[t]
    case DropGuard(t, _) => Apply(sys, action).threads[t]
    case _ => []
  }

  lemma NothingOwed(x: Token)
    ensures Debt(NOTHING, x) == 0
  {
  }

  lemma SpawnDebts(threads: seq<seq<Frame>>, t: nat, f: Frame)
    requires t < |threads| && threads[t] == []
    ensures DebtsMove(ThreadTokens(threads), ThreadTokens(threads[t := [f]]), NOTHING, [f])
  {
    hide Tokens, ThreadTokens, Debt;
    SpawnDelta(threads, t, f);
    forall x | !IsUnit(x) ensures Debt(NOTHING, x) == 0 && Tokens(f)[x] == Debt(f, x) {
      NothingOwed(x);
      TokensDebt(f, x);
    }
  }

  lemma NoDebts(held: multiset<Token>)
    ensures DebtsMove(held, held, NOTHING, [])
  {
  }

  lemma StartDebts(sys: Sys, action: Action)
    requires Enabled(sys, action) && !action.Run?
    ensures |Started(sys, action)| <= 2
    ensures DebtsMove(ThreadTokens(sys.threads), ThreadTokens(Apply(sys, action).threads), NOTHING, Started(sys, action))
  {
    hide DebtsMove, ThreadTokens, Unpinned, SetShard, SetLife, SetHandles, Perform;
    var push, sys' := Started(sys, action), Apply(sys, action);
    if push != [] {
      SpawnDebts(sys.threads, action.t, push[0]);
      assert sys'.threads == sys.threads[action.t := [push[0]]];
    } else {
      NoDebts(ThreadTokens(sys.threads));
    }
  }

  lemma StartRootGoals(nodes: seq<Node>, held: multiset<Token>, shards: nat, a: nat, b: nat)
    requires Forest(nodes)
    ensures Goals(nodes, nodes + [NewNode(Root, shards, 1)], held, NOTHING, [], a, b)
  {
    hide Goals;
    IdleGoals(nodes, nodes + [NewNode(Root, shards, 1)], held, NOTHING, [], a, b);
  }

  lemma SetHandlesGoals(nodes: seq<Node>, held: multiset<Token>, n: nat, handles: nat, push: seq<Frame>, a: nat, b: nat)
    requires ValidNode(nodes, n) && (push == [] || push == [Stop(n, Begin)])
    ensures Goals(nodes, SetHandles(nodes, n, handles), held, NOTHING, push, a, b)
  {
    hide Goals;
    IdleGoals(nodes, SetHandles(nodes, n, handles), held, NOTHING, push, a, b);
  }

  lemma StartCollectGoals(nodes: seq<Node>, held: multiset<Token>, n: nat, a: nat, b: nat)
    requires ValidNode(nodes, n) && nodes[n].life.Live?
    ensures Goals(nodes, SetLife(nodes, n, Dropping), held, NOTHING, [Collect(n, DropLatch(0))], a, b)
  {
  }

  lemma CloneGuardGoals(nodes: seq<Node>, held: multiset<Token>, h: Home, a: nat, b: nat)
    requires ValidShard(nodes, h.node, h.shard) && nodes[h.node].shards[h.shard].word.local >= 0
    ensures Goals(nodes, SetShard(nodes, h.node, h.shard, Plus(nodes[h.node].shards[h.shard].word, Local)), held, NOTHING, [], a, b)
  {
    hide Goals;
    IdleGoals(nodes, SetShard(nodes, h.node, h.shard, Plus(nodes[h.node].shards[h.shard].word, Local)), held, NOTHING, [], a, b);
  }

  lemma SameNodesGoals(nodes: seq<Node>, held: multiset<Token>, push: seq<Frame>, a: nat, b: nat)
    requires |push| <= 1
    requires |push| == 1 ==>
               var f := push[0]; f.ArriveShard? || f.Probe? || f.DepartShard? || f.Stop? || (f.NewChild? && f.cpc.Alloc?)
    ensures Goals(nodes, nodes, held, NOTHING, push, a, b)
  {
    hide Goals;
    IdleGoals(nodes, nodes, held, NOTHING, push, a, b);
  }

  lemma StartGoals(sys: Sys, held: multiset<Token>, action: Action, a: nat, b: nat)
    requires Enabled(sys, action) && !action.Run? && Forest(sys.nodes) && |Started(sys, action)| <= 2
    requires action.CloneGuard? ==> sys.nodes[action.home.node].shards[action.home.shard].word.local >= 0
    ensures Goals(sys.nodes, Apply(sys, action).nodes, held, NOTHING, Started(sys, action), a, b)
  {
    hide Unpinned, Goals, Forest, SetShard, SetHandles, SetLife, Perform;
    var push := Started(sys, action);
    match action
    case StartRoot(shards) => StartRootGoals(sys.nodes, held, shards, a, b);
    case StartCollect(_, n) => StartCollectGoals(sys.nodes, held, n, a, b);
    case CloneHandle(n) => SetHandlesGoals(sys.nodes, held, n, sys.nodes[n].handles + 1, [], a, b);
    case DropHandle(_, n) => SetHandlesGoals(sys.nodes, held, n, sys.nodes[n].handles - 1, push, a, b);
    case CloneGuard(h) => CloneGuardGoals(sys.nodes, held, h, a, b);
    case _ => SameNodesGoals(sys.nodes, held, push, a, b);
  }

  lemma StartKeepsDuties(sys: Sys, action: Action)
    requires Inv(sys) && Enabled(sys, action) && !action.Run?
    ensures Duties(Apply(sys, action).nodes, ThreadTokens(Apply(sys, action).threads))
  {
    hide ThreadTokens, Goals, Duties, DebtsMove, Safe, Allowed, Unpinned, Started, Apply, Stacks, Waiters, Lives;
    hide Registries, Latches, Balanced;
    var sys' := Apply(sys, action);
    var held := ThreadTokens(sys.threads);
    StartDebts(sys, action);
    if action.CloneGuard? { CountersNatural(sys, LocalUnit(action.home.node, action.home.shard)); }
    forall a: nat, b: nat ensures Goals(sys.nodes, sys'.nodes, held, NOTHING, Started(sys, action), a, b) {
      StartGoals(sys, held, action, a, b);
    }
    GoalsKeepDuties(sys.nodes, sys'.nodes, held, ThreadTokens(sys'.threads), NOTHING, Started(sys, action));
  }

  /** Every transition keeps every duty owed. */
  lemma DutiesStep(sys: Sys, action: Action)
    requires Inv(sys) && Enabled(sys, action)
    ensures Duties(Apply(sys, action).nodes, ThreadTokens(Apply(sys, action).threads))
  {
    hide ThreadTokens, Goals, Duties, DebtsMove, Perform, Safe, Allowed, Unpinned, Started;
    if action.Run? {
      RunDuties(sys, action.t, action.ch);
    } else {
      StartKeepsDuties(sys, action);
    }
  }
}
