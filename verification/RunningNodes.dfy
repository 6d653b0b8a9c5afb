/** Why completion is only exact for stopped nodes: a running node stays counted once it has had a
    guard. The state is reached by a run of eight transitions, written out. */
module RunningNodes {
  import opened Memory
  import opened Protocol
  import opened Safety

  const PLAIN := Choice(false, 0, 0)

  /** A root with one shard, one thread and no waiters. */
  function Root(count: int, word: ShardWord, stack: seq<Frame>, guards: multiset<Home>): Sys {
    Sys([Node(NodeWord(false, false, 0, count), [Shard(word, map[])], Link.Root, Live, 1)], [stack], guards, [], {})
  }

  const COUNTED := ShardWord(true, false, 0, 0)

  function States(): seq<Sys> {
    [Sys([], [[]], multiset{}, [], {}),
     Root(0, EMPTY_SHARD, [], multiset{}),
     Root(0, EMPTY_SHARD, [ArriveShard(0, 0, Local, Load)], multiset{}),
     Root(0, EMPTY_SHARD, [ArriveShard(0, 0, Local, Loop(EMPTY_SHARD))], multiset{}),
     Root(0, EMPTY_SHARD, [ArriveShard(0, 0, Local, Wait(EMPTY_SHARD)), ArriveNode(0, NLoad)], multiset{}),
     Root(1, EMPTY_SHARD, [ArriveShard(0, 0, Local, Cas(EMPTY_SHARD))], multiset{}),
     Root(1, ShardWord(true, false, 0, 1), [], multiset{Home(0, 0)}),
     Root(1, ShardWord(true, false, 0, 1), [DepartShard(0, 0, Local, false)], multiset{}),
     Root(1, COUNTED, [], multiset{})]
  }

  function Actions(): seq<Action> {
    [StartRoot(1), StartGuard(0, 0, 0), Run(0, PLAIN), Run(0, PLAIN), Run(0, PLAIN), Run(0, PLAIN), DropGuard(0, Home(0, 0)), Run(0, PLAIN)]
  }

  /** A thread with one frame replaces it. */
  lemma Ran(sys: Sys, f: Frame, sys': Sys)
    requires sys.threads == [[f]] && Safe(sys.nodes, f) && Allowed(sys.nodes, f, PLAIN)
    requires var o := Perform(sys, f, PLAIN); sys' == Sys(o.nodes, [o.push], o.guards, o.waiters, sys.requested)
    ensures Enabled(sys, Run(0, PLAIN)) && sys' == Apply(sys, Run(0, PLAIN))
  {
    hide Perform, Safe, Allowed;
    var base: seq<Frame> := [];
    assert Front(sys.threads[0]) == base;
    assert forall arrived :: Below(base, arrived) == base;
    assert forall push: seq<Frame> :: base + push == push;
    assert forall push: seq<Frame> :: sys.threads[0 := push] == [push];
  }

  /** The call to the node returns to the shard. */
  lemma Returned(sys: Sys, w: Frame, f: Frame, sys': Sys)
    requires sys.threads == [[w, f]] && Safe(sys.nodes, f) && Allowed(sys.nodes, f, PLAIN)
    requires var o := Perform(sys, f, PLAIN); o.arrived && o.push == [] && sys' == Sys(o.nodes, [[Resume(w)]], o.guards, o.waiters, sys.requested)
    ensures Enabled(sys, Run(0, PLAIN)) && sys' == Apply(sys, Run(0, PLAIN))
  {
    hide Perform, Safe, Allowed, Resume;
    assert Front(sys.threads[0]) == [w] && Front([w]) == [];
    assert [] + [Resume(w)] == [Resume(w)] && [Resume(w)] + [] == [Resume(w)];
    assert forall stack: seq<Frame> :: sys.threads[0 := stack] == [stack];
  }

  lemma RootStarts()
    ensures States()[1] == Apply(States()[0], StartRoot(1))
  {
    assert NewNode(Link.Root, 1, 1) == Node(EMPTY_NODE, [Shard(EMPTY_SHARD, map[])], Link.Root, Live, 1);
    assert States()[0].nodes + [NewNode(Link.Root, 1, 1)] == States()[1].nodes;
  }

  lemma RunFollows(i: nat)
    requires i in {2, 3, 4, 5, 7}
    ensures Enabled(States()[i], Run(0, PLAIN)) && States()[i + 1] == Apply(States()[i], Run(0, PLAIN))
  {
    hide Enabled, Apply;
    var s, s' := States()[i], States()[i + 1];
    var f := Last(s.threads[0]);
    var o := Perform(s, f, PLAIN);
    assert o.nodes[0].shards == s'.nodes[0].shards;
    assert o.nodes == s'.nodes;
    assert o.guards == s'.guards;
    if i == 4 {
      Returned(s, s.threads[0][0], f, s');
    } else {
      Ran(s, f, s');
    }
  }

  lemma StateFollows(i: nat)
    requires i < 8
    ensures Enabled(States()[i], Actions()[i]) && States()[i + 1] == Apply(States()[i], Actions()[i])
  {
    var s, s' := States()[i], States()[i + 1];
    if i == 0 {
      RootStarts();
    } else if i == 1 || i == 6 {
      assert s.threads[0 := s'.threads[0]] == s'.threads;
    } else {
      RunFollows(i);
    }
  }

  /** A running node that had a guard, and has none any more, stays counted. Its count is exact only once
      it has stopped. */
  lemma RunningNodeStaysCounted() returns (sys: Sys)
    ensures Reachable(sys) && Quiescent(sys) && ValidNode(sys.nodes, 0) && sys.nodes[0].life.Live? && !sys.nodes[0].word.stopped
    ensures SubtreeIdle(sys, 0) && sys.nodes[0].word.count == 1
  {
    hide Enabled, Apply;
    var run := States();
    sys := run[8];
    forall i | 0 <= i < |run| - 1 ensures Next(run[i], run[i + 1]) { StateFollows(i); }
    assert IsRun(run) && Last(run) == sys;
  }
}
