/** Handles and children: every node has the handle that its creation returns, and one for each clone, and
    loses one with each drop; and creating a child makes one child, registered and with one handle. */
module Handles {
  import opened Memory
  import opened Protocol
  import opened Ledger
  import opened Invariant
  import opened StackSteps
  import opened Runs
  import opened Histories
  import opened GuardCalls

  // ---- Creations in progress --------------------------------------------------------------------------------

  /** The frame is creating the child, which exists already. */
  predicate Bears(f: Frame, c: nat) {
    f.NewChild? && !f.cpc.Alloc? && f.cpc.child == c
  }

  /** Thread `t` is creating the child. */
  predicate BearsAt(sys: Sys, t: nat, c: nat) {
    t < |sys.threads| && |sys.threads[t]| > 0 && Bears(sys.threads[t][0], c)
  }

  /** A child is created by one thread, and has no handle until its creation returns. */
  ghost predicate CreatingOk(sys: Sys) {
    && (forall t: nat, c: nat :: BearsAt(sys, t, c) ==> c < |sys.nodes| && sys.nodes[c].link.Child? && sys.nodes[c].handles == 0)
    && (forall t: nat, u: nat, c: nat :: BearsAt(sys, t, c) && BearsAt(sys, u, c) ==> t == u)
  }

  function HandlesOf(sys: Sys, n: nat): nat {
    if n < |sys.nodes| then sys.nodes[n].handles else 0
  }

  predicate Finishing(f: Frame, n: nat) {
    f.NewChild? && f.cpc.Finish? && f.cpc.child == n
  }

  /** Frames leave handles alone, but for the end of a creation; and only creations make nodes. */
  lemma RunHandles(sys: Sys, f: Frame, ch: Choice, n: nat)
    requires Safe(sys.nodes, f) && Allowed(sys.nodes, f, ch)
    ensures var nodes' := Perform(sys, f, ch).nodes;
            && |nodes'| == |sys.nodes| + One(f.NewChild? && f.cpc.Alloc?)
            && (n < |nodes'| ==> nodes'[n].handles == HandlesOf(sys, n) + One(Finishing(f, n)))
  {
    hide NotifyAll, LiveChildren, Plus, Minus;
  }

  lemma CreationPushes(sys: Sys, f: Frame, ch: Choice, c: nat)
    requires Safe(sys.nodes, f) && Allowed(sys.nodes, f, ch)
    ensures var push := Perform(sys, f, ch).push;
            |push| > 0 && Bears(push[0], c) <==>
              f.NewChild? && (if f.cpc.Alloc? then c == |sys.nodes| else f.cpc.child == c && !f.cpc.Finish?)
  {
    hide NotifyAll, LiveChildren, SetShard, SetNode, SetLife, SetHandles, SetChildren, Registered, Plus, Minus, NewNode;
  }

  lemma CreationAlone(nodes: seq<Node>, stack: seq<Frame>)
    requires StackOk(nodes, stack) && |stack| > 0 && Last(stack).NewChild?
    ensures |stack| == 1
  {
    hide FrameOk, Touches, Anchored;
    assert |stack| > 1 ==> Calls(stack[|stack| - 2], stack[|stack| - 1]);
  }

  /** Whether the moving thread is creating the child afterwards. */
  lemma BearingMoves(sys: Sys, t: nat, ch: Choice, c: nat)
    requires Inv(sys) && Enabled(sys, Run(t, ch))
    ensures var f, sys' := Last(sys.threads[t]), Apply(sys, Run(t, ch));
            && Safe(sys.nodes, f) && Allowed(sys.nodes, f, ch)
            && (f.NewChild? ==> sys.threads[t] == [f]) && (Finishing(f, c) ==> BearsAt(sys, t, c))
            && (BearsAt(sys', t, c) <==> if f.NewChild? && f.cpc.Alloc? then c == |sys.nodes| else BearsAt(sys, t, c) && !Finishing(f, c))
  {
    hide Inv, Perform, Safe, Allowed, StackOk;
    var stack := sys.threads[t];
    TopStack(sys, t);
    MovedBottom(sys, t, ch);
    CreationPushes(sys, Last(stack), ch, c);
    if Last(stack).NewChild? { CreationAlone(sys.nodes, stack); }
  }

  lemma RunOthers(sys: Sys, t: nat, ch: Choice, u: nat)
    requires Enabled(sys, Run(t, ch)) && u != t
    ensures |Apply(sys, Run(t, ch)).threads| == |sys.threads|
    ensures u < |sys.threads| ==> Apply(sys, Run(t, ch)).threads[u] == sys.threads[u]
    ensures Apply(sys, Run(t, ch)).nodes == Perform(sys, Last(sys.threads[t]), ch).nodes
  {
    hide Perform, Safe, Allowed;
  }

  lemma LinksLast(nodes: seq<Node>, nodes': seq<Node>, n: nat)
    requires Evolves(nodes, nodes') && n < |nodes|
    ensures n < |nodes'| && LinkEvolves(nodes[n].link, nodes'[n].link) && |nodes'[n].shards| == |nodes[n].shards|
  {
    hide Listed, LinkEvolves;
    assert NodeEvolves(nodes[n], nodes'[n]);
  }

  lemma AllocIsChild(sys: Sys, f: Frame, ch: Choice)
    requires Safe(sys.nodes, f) && f.NewChild? && f.cpc.Alloc?
    ensures var nodes' := Perform(sys, f, ch).nodes;
            && |nodes'| == |sys.nodes| + 1
            && var node := nodes'[|sys.nodes|]; node.link == Child(f.parent, f.cpc.shard, None) && |node.shards| == 1 && node.handles == 0
  {
  }

  lemma LinkStaysChild(a: Link, b: Link)
    requires LinkEvolves(a, b)
    ensures a.Child? <==> b.Child?
    ensures a.Child? ==> a.parent == b.parent && a.shard == b.shard && (a.key.Some? ==> b.key == a.key)
  {
  }

  lemma BearsAfter(sys: Sys, t: nat, ch: Choice, u: nat, c: nat)
    requires Inv(sys) && CreatingOk(sys) && Enabled(sys, Run(t, ch)) && Evolves(sys.nodes, Apply(sys, Run(t, ch)).nodes)
    requires BearsAt(Apply(sys, Run(t, ch)), u, c)
    ensures BearsAt(sys, u, c) || (u == t && c == |sys.nodes|)
    ensures var nodes' := Apply(sys, Run(t, ch)).nodes; c < |nodes'| && nodes'[c].link.Child? && nodes'[c].handles == 0
  {
    hide Inv, Perform, Safe, Allowed, Evolves, LinkEvolves;
    var f := Last(sys.threads[t]);
    BearingMoves(sys, t, ch, c);
    RunHandles(sys, f, ch, c);
    if u != t { RunOthers(sys, t, ch, u); }
    if f.NewChild? && f.cpc.Alloc? { AllocIsChild(sys, f, ch); }
    if BearsAt(sys, u, c) {
      LinksLast(sys.nodes, Apply(sys, Run(t, ch)).nodes, c);
      LinkStaysChild(sys.nodes[c].link, Apply(sys, Run(t, ch)).nodes[c].link);
    }
  }

  lemma RunCreating(sys: Sys, t: nat, ch: Choice)
    requires Inv(sys) && CreatingOk(sys) && Enabled(sys, Run(t, ch)) && Evolves(sys.nodes, Apply(sys, Run(t, ch)).nodes)
    ensures CreatingOk(Apply(sys, Run(t, ch)))
  {
    hide Inv, Enabled, Apply, Perform, Safe, Allowed, BearsAt, Evolves;
    var sys' := Apply(sys, Run(t, ch));
    forall u: nat, c: nat | BearsAt(sys', u, c) ensures c < |sys'.nodes| && sys'.nodes[c].link.Child? && sys'.nodes[c].handles == 0 {
      BearsAfter(sys, t, ch, u, c);
    }
    forall u: nat, v: nat, c: nat | BearsAt(sys', u, c) && BearsAt(sys', v, c) ensures u == v {
      BearsAfter(sys, t, ch, u, c);
      BearsAfter(sys, t, ch, v, c);
    }
  }

  // ---- Actions ----------------------------------------------------------------------------------------------

  /** A call that starts creates no child yet, and ends no creation. */
  lemma StartBears(sys: Sys, action: Action, u: nat, c: nat)
    requires Enabled(sys, action) && !action.Run?
    ensures BearsAt(Apply(sys, action), u, c) <==> BearsAt(sys, u, c)
  {
    hide Unpinned, StepWaiter, SetShard, SetLife, SetHandles, NewNode, Plus, Held, ValidShard;
  }

  predicate Drops(action: Action, n: nat) {
    action.DropHandle? && action.n == n
  }

  lemma StartHandles(sys: Sys, action: Action, n: nat)
    requires Enabled(sys, action) && !action.Run?
    ensures var sys' := Apply(sys, action);
            && |sys'.nodes| == |sys.nodes| + One(action.StartRoot?)
            && (n < |sys.nodes| ==> sys'.nodes[n].link == sys.nodes[n].link)
            && HandlesOf(sys', n) + One(Drops(action, n))
               == HandlesOf(sys, n) + One(action.StartRoot? && n == |sys.nodes|) + One(action == CloneHandle(n))
            && (action == CloneHandle(n) || Drops(action, n) ==> HandlesOf(sys, n) > 0)
  {
    hide Unpinned, StepWaiter, Plus;
  }

  lemma StartCreating(sys: Sys, action: Action)
    requires CreatingOk(sys) && Enabled(sys, action) && !action.Run?
    ensures CreatingOk(Apply(sys, action))
  {
    hide Enabled, Apply, BearsAt;
    var sys' := Apply(sys, action);
    forall u: nat, c: nat | BearsAt(sys', u, c) ensures c < |sys'.nodes| && sys'.nodes[c].link.Child? && sys'.nodes[c].handles == 0 {
      StartBears(sys, action, u, c);
      StartHandles(sys, action, c);
    }
    forall u: nat, v: nat, c: nat | BearsAt(sys', u, c) && BearsAt(sys', v, c) ensures u == v {
      StartBears(sys, action, u, c);
      StartBears(sys, action, v, c);
    }
  }

  lemma CreatingStep(sys: Sys, action: Action)
    requires Inv(sys) && CreatingOk(sys) && Enabled(sys, action) && Evolves(sys.nodes, Apply(sys, action).nodes)
    ensures CreatingOk(Apply(sys, action))
  {
    hide Inv, CreatingOk, Enabled, Apply, Evolves;
    if action.Run? { RunCreating(sys, action.t, action.ch); } else { StartCreating(sys, action); }
  }

  lemma {:induction false} CreatingOver(run: seq<Sys>, i: nat)
    requires IsRun(run) && i < |run|
    ensures CreatingOk(run[i])
  {
    hide Inv, Enabled, Apply, Evolves;
    if i > 0 {
      CreatingOver(run, i - 1);
      RunInv(run, i - 1);
      assert Next(run[i - 1], run[i - 1 + 1]);
      var action :| Enabled(run[i - 1], action) && run[i] == Apply(run[i - 1], action);
      InvStep(run[i - 1], action);
      CreatingStep(run[i - 1], action);
    }
  }

  lemma ReachableCreating(sys: Sys)
    requires Reachable(sys)
    ensures CreatingOk(sys)
  {
    hide Init, Next, CreatingOk;
    var run :| IsRun(run) && Last(run) == sys;
    CreatingOver(run, |run| - 1);
  }

  // ---- Handles over a run -----------------------------------------------------------------------------------

  /** The node exists, and its creation is over. */
  predicate Created(sys: Sys, n: nat) {
    n < |sys.nodes| && forall t: nat :: t < |sys.threads| ==> !BearsAt(sys, t, n)
  }

  ghost function Clones(acts: seq<Action>, n: nat, i: nat): nat
    requires i <= |acts|
  {
    if i == 0 then 0 else Clones(acts, n, i - 1) + One(acts[i - 1] == CloneHandle(n))
  }

  ghost function AllDrops(acts: seq<Action>, n: nat, i: nat): nat
    requires i <= |acts|
  {
    if i == 0 then 0 else AllDrops(acts, n, i - 1) + One(Drops(acts[i - 1], n))
  }

  lemma SameBears(sys: Sys, sys': Sys, u: nat, n: nat)
    requires |sys'.threads| == |sys.threads| && (u < |sys.threads| ==> sys'.threads[u] == sys.threads[u])
    ensures BearsAt(sys', u, n) <==> BearsAt(sys, u, n)
  {
  }

  lemma RunCreates(sys: Sys, t: nat, ch: Choice, n: nat)
    requires Inv(sys) && CreatingOk(sys) && Enabled(sys, Run(t, ch))
    ensures var sys' := Apply(sys, Run(t, ch)); HandlesOf(sys', n) + One(Created(sys, n)) == HandlesOf(sys, n) + One(Created(sys', n))
  {
    hide Inv, Perform, Safe, Allowed, Advance;
    var f, sys' := Last(sys.threads[t]), Apply(sys, Run(t, ch));
    BearingMoves(sys, t, ch, n);
    RunHandles(sys, f, ch, n);
    forall u: nat | u < |sys.threads| && u != t ensures BearsAt(sys', u, n) <==> BearsAt(sys, u, n) {
      RunOthers(sys, t, ch, u);
      SameBears(sys, sys', u, n);
    }
    RunOthers(sys, t, ch, t + 1);
  }

  lemma StartCreates(sys: Sys, action: Action, n: nat)
    requires Inv(sys) && CreatingOk(sys) && Enabled(sys, action) && !action.Run?
    ensures var sys' := Apply(sys, action);
            HandlesOf(sys', n) + One(Created(sys, n)) + One(Drops(action, n))
              == HandlesOf(sys, n) + One(Created(sys', n)) + One(action == CloneHandle(n))
  {
    hide Inv, Enabled, Apply, BearsAt;
    var sys' := Apply(sys, action);
    StartHandles(sys, action, n);
    StartShape(sys, action, 0);
    forall u: nat ensures BearsAt(sys', u, n) <==> BearsAt(sys, u, n) { StartBears(sys, action, u, n); }
  }

  lemma HandlesStep(sys: Sys, action: Action, n: nat)
    requires Inv(sys) && CreatingOk(sys) && Enabled(sys, action)
    ensures var sys' := Apply(sys, action);
            HandlesOf(sys', n) + One(Created(sys, n)) + One(Drops(action, n))
              == HandlesOf(sys, n) + One(Created(sys', n)) + One(action == CloneHandle(n))
  {
    hide Inv, CreatingOk, Enabled, Apply, Created, HandlesOf;
    if action.Run? { RunCreates(sys, action.t, action.ch, n); } else { StartCreates(sys, action, n); }
  }

  /** The handles of a node are the one that its creation returned and one for each clone, less one for
      each drop. */
  lemma {:induction false} HandlesCounted(run: seq<Sys>, acts: seq<Action>, n: nat, i: nat)
    requires Performs(run, acts) && Init(run[0]) && i <= |acts|
    ensures HandlesOf(run[i], n) == One(Created(run[i], n)) + Clones(acts, n, i) - AllDrops(acts, n, i)
  {
    hide Inv, CreatingOk, Enabled, Apply, Reachable, Evolves;
    if i > 0 {
      HandlesCounted(run, acts, n, i - 1);
      StepAt(run, acts, i - 1);
      AllReachable(run, acts, i - 1);
      ReachableCreating(run[i - 1]);
      HandlesStep(run[i - 1], acts[i - 1], n);
    }
  }

  /** `Swansong::new`: a root with the given shards, alive and running, without guards, and with one handle. */
  lemma RootMade(sys: Sys, shards: nat)
    requires Enabled(sys, StartRoot(shards))
    ensures var nodes' := Apply(sys, StartRoot(shards)).nodes;
            && |nodes'| == |sys.nodes| + 1 && nodes'[..|sys.nodes|] == sys.nodes
            && var root := nodes'[|sys.nodes|];
               root.link.Root? && root.life.Live? && !root.word.stopped && root.word.count == 0 && |root.shards| == shards && root.handles == 1
               && forall s :: 0 <= s < shards ==> root.shards[s].word == EMPTY_SHARD && root.shards[s].children == map[]
  {
  }

  // ---- Creating a child -------------------------------------------------------------------------------------

  /** The stack's call is creating child `c` of `p`, and has registered it unless it is about to. */
  ghost predicate Bearing(sys: Sys, t: nat, p: nat, s: nat, c: nat) {
    && BearsAt(sys, t, c) && sys.threads[t][0].parent == p
    && c < |sys.nodes| && |sys.nodes[c].shards| == 1
    && sys.nodes[c].link.Child? && sys.nodes[c].link.parent == p && sys.nodes[c].link.shard == s
    && (!sys.threads[t][0].cpc.Register? ==> sys.nodes[c].link.key.Some?)
  }

  /** A step of the call goes on creating the same child, or ends the call with a handle to it. */
  ghost predicate BearMoves(sys: Sys, sys': Sys, t: nat, p: nat, s: nat, c: nat) {
    && |sys'.nodes| == |sys.nodes| && t < |sys'.threads|
    && if sys'.threads[t] == []
       then HandlesOf(sys', c) == HandlesOf(sys, c) + 1 && c < |sys.nodes| && sys.nodes[c].link.Child? && sys.nodes[c].link.key.Some?
       else Bearing(sys', t, p, s, c)
  }

  lemma BearAlone(sys: Sys, t: nat, ch: Choice, p: nat, s: nat, c: nat)
    requires Enabled(sys, Run(t, ch)) && Bearing(sys, t, p, s, c) && |sys.threads[t]| == 1
    ensures BearMoves(sys, Apply(sys, Run(t, ch)), t, p, s, c)
  {
    hide LiveChildren, NotifyAll;
    assert Front(sys.threads[t]) == [];
  }

  lemma NotCreating(nodes: seq<Node>, stack: seq<Frame>)
    requires StackOk(nodes, stack) && |stack| > 1
    ensures !Last(stack).NewChild?
  {
    hide FrameOk, Touches, Anchored;
    assert Calls(stack[|stack| - 2], stack[|stack| - 1]);
  }

  lemma BornLasts(nodes: seq<Node>, nodes': seq<Node>, c: nat)
    requires Evolves(nodes, nodes') && c < |nodes| && nodes[c].link.Child?
    ensures c < |nodes'| && |nodes'[c].shards| == |nodes[c].shards| && nodes'[c].link.Child?
    ensures nodes'[c].link.parent == nodes[c].link.parent && nodes'[c].link.shard == nodes[c].link.shard
    ensures nodes[c].link.key.Some? ==> nodes'[c].link.key.Some?
  {
    hide Evolves, LinkEvolves;
    LinksLast(nodes, nodes', c);
    LinkStaysChild(nodes[c].link, nodes'[c].link);
  }

  lemma BearStep(sys: Sys, t: nat, ch: Choice, p: nat, s: nat, c: nat)
    requires Inv(sys) && Enabled(sys, Run(t, ch)) && Bearing(sys, t, p, s, c) && Evolves(sys.nodes, Apply(sys, Run(t, ch)).nodes)
    ensures BearMoves(sys, Apply(sys, Run(t, ch)), t, p, s, c)
  {
    hide Inv, Perform, Safe, Allowed, StackOk, Evolves, LinkEvolves;
    if |sys.threads[t]| == 1 {
      BearAlone(sys, t, ch, p, s, c);
    } else {
      TopStack(sys, t);
      NotCreating(sys.nodes, sys.threads[t]);
      MovedBottom(sys, t, ch);
      RunHandles(sys, Last(sys.threads[t]), ch, c);
      BornLasts(sys.nodes, Apply(sys, Run(t, ch)).nodes, c);
    }
  }

  lemma OtherBears(run: seq<Sys>, acts: seq<Action>, t: nat, i: nat, p: nat, s: nat, c: nat)
    requires Performs(run, acts) && i < |acts| && !Moves(acts[i], t) && Bearing(run[i], t, p, s, c)
    ensures Bearing(run[i + 1], t, p, s, c)
  {
    hide Inv, Enabled, Apply, Reachable, Evolves;
    StepAt(run, acts, i);
    OthersLeave(run[i], acts[i], t);
    BornLasts(run[i].nodes, run[i + 1].nodes, c);
  }

  /** No step of the call makes a node. */
  ghost predicate NoNodes(run: seq<Sys>, acts: seq<Action>, t: nat, from: nat)
    requires |run| == |acts| + 1
  {
    forall m :: from <= m < |acts| && Moves(acts[m], t) ==> |run[m + 1].nodes| == |run[m].nodes|
  }

  /** The call's last step hands out the first handle to the child, which is registered below its key. */
  ghost predicate HandsOut(run: seq<Sys>, acts: seq<Action>, t: nat, p: nat, s: nat, c: nat)
    requires |run| == |acts| + 1 && |acts| > 0
  {
    var sys' := run[|acts|];
    && Moves(acts[|acts| - 1], t) && HandlesOf(run[|acts| - 1], c) == 0 && HandlesOf(sys', c) == 1
    && c < |sys'.nodes| && sys'.nodes[c].life.Live? && |sys'.nodes[c].shards| == 1
    && sys'.nodes[c].link.Child? && sys'.nodes[c].link.parent == p && sys'.nodes[c].link.shard == s
    && Listed(sys'.nodes, c)
  }

  lemma BornListed(sys: Sys, c: nat)
    requires Inv(sys) && IsChild(sys.nodes, c) && sys.nodes[c].handles > 0 && sys.nodes[c].link.key.Some?
    ensures sys.nodes[c].life.Live? && Listed(sys.nodes, c)
  {
    hide ThreadTokens, Words, Latches, Stacks, Departures, Balanced, Duties, Waiters, Listed, EntryOk;
  }

  lemma BearHandle(sys: Sys, t: nat, p: nat, s: nat, c: nat)
    requires Reachable(sys) && Bearing(sys, t, p, s, c)
    ensures HandlesOf(sys, c) == 0
  {
    hide Reachable;
    ReachableCreating(sys);
  }

  lemma BearsNow(sys: Sys, t: nat, p: nat, s: nat, c: nat)
    requires Bearing(sys, t, p, s, c)
    ensures t < |sys.threads| && sys.threads[t] != [] && IsChild(sys.nodes, c) && |sys.nodes[c].shards| == 1
    ensures sys.nodes[c].link.parent == p && sys.nodes[c].link.shard == s
  {
  }

  lemma {:induction false} BearingEnds(run: seq<Sys>, acts: seq<Action>, t: nat, p: nat, s: nat, c: nat, i: nat)
    requires WholeCall(run, acts, t) && 0 < i < |acts| && Bearing(run[i], t, p, s, c)
    ensures NoNodes(run, acts, t, i) && HandsOut(run, acts, t, p, s, c)
    decreases |acts| - i
  {
    hide Inv, Enabled, Apply, Reachable, Evolves, Bearing, Listed;
    StepAt(run, acts, i);
    if !Moves(acts[i], t) {
      BearsNow(run[i], t, p, s, c);
      OthersLeave(run[i], acts[i], t);
      OtherBears(run, acts, t, i, p, s, c);
      BearingEnds(run, acts, t, p, s, c, i + 1);
    } else {
      BearStep(run[i], t, acts[i].ch, p, s, c);
      if i + 1 < |acts| {
        BearingEnds(run, acts, t, p, s, c, i + 1);
      } else {
        AllReachable(run, acts, i);
        BearHandle(run[i], t, p, s, c);
        BearsNow(run[i], t, p, s, c);
        BornLasts(run[i].nodes, run[i + 1].nodes, c);
        BornListed(run[i + 1], c);
      }
    }
  }

  lemma AllocBears(sys: Sys, t: nat, ch: Choice, p: nat, s: nat)
    requires Enabled(sys, Run(t, ch)) && sys.threads[t] == [NewChild(p, Alloc(s))]
    ensures Bearing(Apply(sys, Run(t, ch)), t, p, s, |sys.nodes|) && |Apply(sys, Run(t, ch)).nodes| == |sys.nodes| + 1
  {
    assert Front(sys.threads[t]) == [];
  }

  lemma {:induction false} NodesGrow(run: seq<Sys>, acts: seq<Action>, i: nat)
    requires Performs(run, acts) && i <= |acts|
    ensures |run[0].nodes| <= |run[i].nodes|
  {
    hide Inv, Enabled, Apply, Reachable, Evolves;
    if i > 0 {
      NodesGrow(run, acts, i - 1);
      StepAt(run, acts, i - 1);
      EvolvesGrows(run[i - 1].nodes, run[i].nodes);
    }
  }

  lemma {:induction false} AllocEnds(run: seq<Sys>, acts: seq<Action>, t: nat, p: nat, s: nat, i: nat) returns (k: nat)
    requires WholeCall(run, acts, t) && 0 < i < |acts| && run[i].threads[t] == [NewChild(p, Alloc(s))]
    ensures i <= k < |acts| - 1 && Moves(acts[k], t) && |run[k + 1].nodes| == |run[k].nodes| + 1 && |run[0].nodes| <= |run[k].nodes|
    ensures NoNodes(run, acts, t, k + 1) && (forall m :: i <= m < k ==> !Moves(acts[m], t))
    ensures HandsOut(run, acts, t, p, s, |run[k].nodes|)
    decreases |acts| - i
  {
    hide Inv, Enabled, Apply, Reachable, Evolves, Bearing, HandsOut;
    StepAt(run, acts, i);
    if !Moves(acts[i], t) {
      OthersLeave(run[i], acts[i], t);
      k := AllocEnds(run, acts, t, p, s, i + 1);
    } else {
      AllocBears(run[i], t, acts[i].ch, p, s);
      BearsNow(run[i + 1], t, p, s, |run[i].nodes|);
      NodesGrow(run, acts, i);
      BearingEnds(run, acts, t, p, s, |run[i].nodes|, i + 1);
      k := i;
    }
  }

  lemma ChildStarts(sys: Sys, t: nat, n: nat, s: nat)
    requires Enabled(sys, StartChild(t, n, s))
    ensures var sys' := Apply(sys, StartChild(t, n, s)); sys'.threads[t] == [NewChild(n, Alloc(s))] && sys'.nodes == sys.nodes
  {
  }

  /** `Swansong::child`: the call makes exactly one node, a child on the chosen shard of its parent, which at
      the end is alive, registered there, and has one handle. */
  lemma ChildCall(run: seq<Sys>, acts: seq<Action>, t: nat, p: nat, s: nat) returns (k: nat)
    requires WholeCall(run, acts, t) && acts[0] == StartChild(t, p, s)
    ensures 0 < k < |acts| - 1 && Moves(acts[k], t) && |run[k + 1].nodes| == |run[k].nodes| + 1 && |run[1].nodes| == |run[0].nodes|
    ensures |run[0].nodes| <= |run[k].nodes|
    ensures forall m :: 0 < m < |acts| && m != k && Moves(acts[m], t) ==> |run[m + 1].nodes| == |run[m].nodes|
    ensures HandsOut(run, acts, t, p, s, |run[k].nodes|)
  {
    hide Inv, Enabled, Apply, Reachable, Evolves, HandsOut;
    StepAt(run, acts, 0);
    ChildStarts(run[0], t, p, s);
    k := AllocEnds(run, acts, t, p, s, 1);
  }
}
