/** What the calls that make guards come to, from their start to their end, whatever other threads do
    meanwhile. */
module GuardCalls {
  import opened Memory
  import opened Protocol
  import opened Ledger
  import opened Invariant
  import opened Histories

  /** The frame creates a guard by way of `Guard::at_location`. */
  predicate Creates(f: Frame) {
    f.ArriveShard? && f.unit == Local
  }

  /** What a transition does to arrivals that create guards. */
  lemma CreateShape(sys: Sys, f: Frame, ch: Choice)
    requires Safe(sys.nodes, f) && Allowed(sys.nodes, f, ch)
    ensures var o := Perform(sys, f, ch);
            Creates(f) ==>
              if o.guards == sys.guards
              then |o.push| > 0 && !o.arrived && Creates(o.push[0]) && o.push[0].n == f.n && o.push[0].s == f.s
              else o.push == [] && !o.arrived && o.guards == sys.guards + multiset{Home(f.n, f.s)}
    ensures var o := Perform(sys, f, ch);
            !Creates(f) ==>
              && (o.guards == sys.guards || (f.Probe? && o.guards == sys.guards + multiset{Home(f.n, f.s)}))
              && (|o.push| > 0 && Creates(o.push[0]) ==> |o.push| == 1 && o.push[0].spc.Load?)
  {
    hide NotifyAll, LiveChildren, SetShard, SetNode, SetLife, SetHandles, SetChildren, Registered, Plus, Minus, NewNode;
    if Creates(f) {
      assert Home(f.n, f.s) in sys.guards + multiset{Home(f.n, f.s)};
      assert (sys.guards + multiset{Home(f.n, f.s)})[Home(f.n, f.s)] != sys.guards[Home(f.n, f.s)];
    }
  }

  /** The bottom of the moving stack. */
  lemma MovedBottom(sys: Sys, t: nat, ch: Choice)
    requires Enabled(sys, Run(t, ch)) && StackOk(sys.nodes, sys.threads[t])
    ensures var stack, stack', o := sys.threads[t], Advance(sys, t, ch).threads[t], Perform(sys, Last(sys.threads[t]), ch);
            if |stack| == 1 then stack' == o.push
            else !Creates(Last(stack)) && |stack'| > 0 && (stack'[0] == stack[0] || stack'[0] == Resume(stack[0]))
  {
    hide Perform, Safe, Allowed, FrameOk, Touches, Anchored;
    var stack := sys.threads[t];
    if |stack| > 1 {
      assert Calls(stack[|stack| - 2], stack[|stack| - 1]);
    } else {
      assert Front(stack) == [];
    }
  }

  lemma TopStack(sys: Sys, t: nat)
    requires Inv(sys) && t < |sys.threads|
    ensures StackOk(sys.nodes, sys.threads[t])
  {
    hide ThreadTokens, StackOk;
  }

  /** A protocol transition other than a call's own. */
  lemma StartShape(sys: Sys, action: Action, u: nat)
    requires Enabled(sys, action) && !action.Run?
    ensures var sys' := Protocol.Apply(sys, action);
            && |sys'.threads| == |sys.threads|
            && (u < |sys.threads| && sys'.threads[u] != sys.threads[u] ==>
                  sys.threads[u] == [] && |sys'.threads[u]| == 1 && (Creates(sys'.threads[u][0]) ==> sys'.threads[u][0].spc.Load?))
            && sys'.guards == (match action case CloneGuard(h) => sys.guards + multiset{h}
                                            case DropGuard(_, h) => sys.guards - multiset{h}
                                            case _ => sys.guards)
            && (action.DropGuard? ==> action.home in sys.guards)
  {
    hide Unpinned, StepWaiter, SetShard, SetLife, SetHandles, NewNode, Plus, Held, ValidShard;
  }

  // ---- Guards -----------------------------------------------------------------------------------------------

  /** The call that the stack belongs to is creating a guard on the shard. */
  predicate Making(stack: seq<Frame>, n: nat, s: nat) {
    |stack| > 0 && Creates(stack[0]) && stack[0].n == n && stack[0].s == s
  }

  /** Other threads' transitions, and calls that start, leave a call in progress alone. */
  lemma OthersLeave(sys: Sys, action: Action, t: nat)
    requires Enabled(sys, action) && t < |sys.threads| && sys.threads[t] != [] && !Moves(action, t)
    ensures t < |Apply(sys, action).threads| && Apply(sys, action).threads[t] == sys.threads[t]
  {
    hide Unpinned, StepWaiter, SetShard, SetLife, SetHandles, NewNode, Plus, ValidShard, Perform, Safe, Allowed;
  }

  lemma ProbeAlone(nodes: seq<Node>, stack: seq<Frame>)
    requires StackOk(nodes, stack) && |stack| > 0 && Last(stack).Probe?
    ensures |stack| == 1
  {
    hide FrameOk, Touches, Anchored;
    assert |stack| > 1 ==> Calls(stack[|stack| - 2], stack[|stack| - 1]);
  }

  /** The creation of a guard goes on, or ends with the guard. */
  lemma MakingStep(sys: Sys, t: nat, ch: Choice, n: nat, s: nat)
    requires Inv(sys) && Enabled(sys, Run(t, ch)) && Making(sys.threads[t], n, s)
    ensures var sys' := Apply(sys, Run(t, ch));
            && |sys'.threads| == |sys.threads|
            && if sys'.threads[t] == [] then sys'.guards == sys.guards + multiset{Home(n, s)}
               else Making(sys'.threads[t], n, s) && sys'.guards == sys.guards
  {
    hide Inv, Perform, Safe, Allowed, StackOk;
    TopStack(sys, t);
    MovedBottom(sys, t, ch);
    CreateShape(sys, Last(sys.threads[t]), ch);
    if Last(sys.threads[t]).Probe? { ProbeAlone(sys.nodes, sys.threads[t]); }
  }

  /** No step of the call makes a guard. */
  ghost predicate MakesNone(run: seq<Sys>, acts: seq<Action>, t: nat, from: nat, to: nat)
    requires |run| == |acts| + 1
  {
    forall m :: from <= m < to && m < |acts| && Moves(acts[m], t) ==> run[m + 1].guards == run[m].guards
  }

  /** The last step of the run belongs to thread `t`, and makes a guard on the shard. */
  ghost predicate MakesLast(run: seq<Sys>, acts: seq<Action>, t: nat, h: Home)
    requires |run| == |acts| + 1 && |acts| > 0
  {
    Moves(acts[|acts| - 1], t) && run[|acts|].guards == run[|acts| - 1].guards + multiset{h}
  }

  lemma {:induction false} MakingEnds(run: seq<Sys>, acts: seq<Action>, t: nat, n: nat, s: nat, i: nat)
    requires WholeCall(run, acts, t) && 0 < i < |acts| && Making(run[i].threads[t], n, s)
    ensures MakesNone(run, acts, t, i, |acts| - 1) && MakesLast(run, acts, t, Home(n, s))
    decreases |acts| - i
  {
    hide Inv, Enabled, Apply, Reachable, Making, Evolves;
    StepAt(run, acts, i);
    if Moves(acts[i], t) { MakingStep(run[i], t, acts[i].ch, n, s); } else { OthersLeave(run[i], acts[i], t); }
    if i + 1 < |acts| { MakingEnds(run, acts, t, n, s, i + 1); }
  }

  lemma GuardStarts(sys: Sys, t: nat, n: nat, s: nat)
    requires Enabled(sys, StartGuard(t, n, s))
    ensures var sys' := Apply(sys, StartGuard(t, n, s));
            t < |sys'.threads| && sys'.threads[t] != [] && Making(sys'.threads[t], n, s) && sys'.guards == sys.guards
  {
  }

  /** `Guard::new`: the call makes exactly one guard, on the shard that it chose, with its last step. */
  lemma GuardCall(run: seq<Sys>, acts: seq<Action>, t: nat, n: nat, s: nat)
    requires WholeCall(run, acts, t) && acts[0] == StartGuard(t, n, s)
    ensures |acts| > 1 && run[1].guards == run[0].guards
    ensures MakesNone(run, acts, t, 0, |acts| - 1) && MakesLast(run, acts, t, Home(n, s))
  {
    hide Inv, Enabled, Apply, Reachable, Making, Evolves;
    StepAt(run, acts, 0);
    GuardStarts(run[0], t, n, s);
    MakingEnds(run, acts, t, n, s, 1);
  }

  // ---- Guards on an interrupt's shard -----------------------------------------------------------------------

  /** At some instant before `i`, the shard was found not to have arrived. */
  ghost predicate SawUnarrived(run: seq<Sys>, i: nat, n: nat, s: nat) {
    exists v :: 0 < v < i && v < |run| && ValidShard(run[v].nodes, n, s) && !run[v].nodes[n].shards[s].word.arrived
  }

  /** What a call of `Guard::for_shard` knows before it upgrades: the word that it compares with was the
      shard's, and a root's shard was found not to have arrived before the root is needed. */
  ghost predicate Probing(run: seq<Sys>, i: nat, n: nat, s: nat, pc: ProbePc)
    requires i < |run|
  {
    && ValidShard(run[i].nodes, n, s)
    && (pc.PLoop? ==> exists v :: 0 < v < i && ValidShard(run[v].nodes, n, s) && run[v].nodes[n].shards[s].word == pc.seen)
    && (pc.Upgrade? && run[i].nodes[n].link.Root? ==> SawUnarrived(run, i, n, s))
  }

  /** One step: the probe goes on, or makes its guard, or upgrades the node and goes on to make one, or
      ends because the node is not alive. */
  ghost predicate ProbeMoves(sys: Sys, sys': Sys, t: nat, ch: Choice, n: nat, s: nat, pc: ProbePc)
    requires t < |sys'.threads| && ValidShard(sys.nodes, n, s)
  {
    var stack' := sys'.threads[t];
    if pc.Upgrade? then
      && sys'.guards == sys.guards
      && if sys.nodes[n].life.Live? then ValidShard(sys.nodes, n, ch.index) && stack' != [] && Making(stack', n, ch.index) else stack' == []
    else if stack' == [] then
      sys'.guards == sys.guards + multiset{Home(n, s)}
    else
      && sys'.guards == sys.guards && |stack'| == 1 && stack'[0].Probe? && stack'[0].n == n && stack'[0].s == s
      && !stack'[0].ppc.PLoad?
      && (stack'[0].ppc.PLoop? ==> stack'[0].ppc.seen == sys.nodes[n].shards[s].word)
      && (stack'[0].ppc.Upgrade? ==> pc.PLoop? && !pc.seen.arrived)
  }

  lemma ProbeStep(sys: Sys, t: nat, ch: Choice, n: nat, s: nat, pc: ProbePc)
    requires Enabled(sys, Run(t, ch)) && sys.threads[t] == [Probe(n, s, pc)]
    ensures |Apply(sys, Run(t, ch)).threads| == |sys.threads| && ValidShard(sys.nodes, n, s)
    ensures ProbeMoves(sys, Apply(sys, Run(t, ch)), t, ch, n, s, pc)
  {
    hide SetShard, Plus;
    assert Front(sys.threads[t]) == [];
  }

  lemma SameShape(run: seq<Sys>, acts: seq<Action>, i: nat, n: nat, s: nat)
    requires Performs(run, acts) && i < |acts| && ValidShard(run[i].nodes, n, s)
    ensures ValidShard(run[i + 1].nodes, n, s) && (run[i + 1].nodes[n].link.Root? <==> run[i].nodes[n].link.Root?)
  {
    hide Inv, Enabled, Apply, Reachable, Listed;
    StepAt(run, acts, i);
    assert NodeEvolves(run[i].nodes[n], run[i + 1].nodes[n]);
  }

  /** A probe that goes on still knows what it knew, and what it has just loaded. */
  lemma ProbingLasts(run: seq<Sys>, acts: seq<Action>, i: nat, n: nat, s: nat, pc: ProbePc, pc': ProbePc)
    requires Performs(run, acts) && 0 < i < |acts| && Probing(run, i, n, s, pc)
    requires pc' == pc || (pc'.PLoop? && pc'.seen == run[i].nodes[n].shards[s].word) || (pc'.Upgrade? && pc.PLoop? && !pc.seen.arrived)
    ensures Probing(run, i + 1, n, s, pc')
  {
    hide Inv, Enabled, Apply, Reachable, Evolves;
    SameShape(run, acts, i, n, s);
    if pc'.Upgrade? && pc.PLoop? {
      var v :| 0 < v < i && ValidShard(run[v].nodes, n, s) && run[v].nodes[n].shards[s].word == pc.seen;
      assert SawUnarrived(run, i + 1, n, s);
    } else if pc' == pc && pc.Upgrade? && run[i].nodes[n].link.Root? {
      var v :| 0 < v < i && v < |run| && ValidShard(run[v].nodes, n, s) && !run[v].nodes[n].shards[s].word.arrived;
      assert SawUnarrived(run, i + 1, n, s);
    }
  }

  /** The call ended at a step when the node was not alive, and for a root only after its shard was
      found not to have arrived. */
  ghost predicate FoundNone(run: seq<Sys>, acts: seq<Action>, t: nat, n: nat, s: nat)
    requires |run| == |acts| + 1 && |acts| > 0
  {
    var i := |acts| - 1;
    && Moves(acts[i], t) && ValidShard(run[i].nodes, n, s) && !run[i].nodes[n].life.Live? && run[i + 1].guards == run[i].guards
    && (run[i].nodes[n].link.Root? ==> SawUnarrived(run, i, n, s))
  }

  /** How a probe can end: with a guard on some shard of the node, or without the node. */
  ghost predicate ProbeEnds(run: seq<Sys>, acts: seq<Action>, t: nat, n: nat, s: nat, made: Option<nat>)
    requires |run| == |acts| + 1 && |acts| > 0
  {
    match made
    case Some(s') => ValidShard(run[|acts|].nodes, n, s') && MakesLast(run, acts, t, Home(n, s'))
    case None => FoundNone(run, acts, t, n, s)
  }

  lemma ShardStays(run: seq<Sys>, acts: seq<Action>, i: nat, n: nat, s: nat)
    requires Performs(run, acts) && i <= |acts| && ValidShard(run[i].nodes, n, s)
    ensures ValidShard(run[|acts|].nodes, n, s)
    decreases |acts| - i
  {
    hide Inv, Enabled, Apply, Reachable, Evolves;
    if i < |acts| {
      SameShape(run, acts, i, n, s);
      ShardStays(run, acts, i + 1, n, s);
    }
  }

  lemma ProbingNow(run: seq<Sys>, i: nat, n: nat, s: nat, pc: ProbePc)
    requires i < |run| && Probing(run, i, n, s, pc)
    ensures ValidShard(run[i].nodes, n, s)
    ensures pc.Upgrade? && run[i].nodes[n].link.Root? ==> SawUnarrived(run, i, n, s)
  {
    hide SawUnarrived;
  }

  lemma {:induction false} ProbeGoesOn(run: seq<Sys>, acts: seq<Action>, t: nat, n: nat, s: nat, pc: ProbePc, i: nat) returns (made: Option<nat>)
    requires WholeCall(run, acts, t) && 0 < i < |acts| && run[i].threads[t] == [Probe(n, s, pc)] && Probing(run, i, n, s, pc)
    ensures MakesNone(run, acts, t, i, |acts| - 1) && ProbeEnds(run, acts, t, n, s, made)
    decreases |acts| - i
  {
    hide Inv, Enabled, Apply, Reachable, Making, Evolves, Probing, SawUnarrived;
    StepAt(run, acts, i);
    ProbingNow(run, i, n, s, pc);
    if !Moves(acts[i], t) {
      OthersLeave(run[i], acts[i], t);
      ProbingLasts(run, acts, i, n, s, pc, pc);
      made := ProbeGoesOn(run, acts, t, n, s, pc, i + 1);
    } else {
      var ch := acts[i].ch;
      ProbeStep(run[i], t, ch, n, s, pc);
      var stack' := run[i + 1].threads[t];
      if i + 1 == |acts| {
        made := if pc.Upgrade? then None else Some(s);
        ShardStays(run, acts, i, n, s);
      } else if pc.Upgrade? {
        MakingEnds(run, acts, t, n, ch.index, i + 1);
        ShardStays(run, acts, i, n, ch.index);
        made := Some(ch.index);
      } else {
        assert stack' == [Probe(n, s, stack'[0].ppc)];
        ProbingLasts(run, acts, i, n, s, pc, stack'[0].ppc);
        made := ProbeGoesOn(run, acts, t, n, s, stack'[0].ppc, i + 1);
      }
    }
  }

  lemma ProbeStarts(sys: Sys, t: nat, n: nat, s: nat)
    requires Enabled(sys, StartProbe(t, n, s))
    ensures var sys' := Apply(sys, StartProbe(t, n, s));
            && sys'.threads[t] == [Probe(n, s, if sys.nodes[n].link.Root? then PLoad else Upgrade)]
            && sys'.guards == sys.guards && sys'.nodes == sys.nodes && ValidShard(sys.nodes, n, s)
  {
  }

  /** `Guard::for_shard`: the call makes exactly one guard, on a shard of the interrupt's node, with its last
      step; or none, and then the node was not alive at its last step, and a root's shard had been found
      not to have arrived. */
  lemma ProbeCall(run: seq<Sys>, acts: seq<Action>, t: nat, n: nat, s: nat) returns (made: Option<nat>)
    requires WholeCall(run, acts, t) && acts[0] == StartProbe(t, n, s)
    ensures |acts| > 1 && run[1].guards == run[0].guards
    ensures MakesNone(run, acts, t, 0, |acts| - 1) && ProbeEnds(run, acts, t, n, s, made)
  {
    hide Inv, Enabled, Apply, Reachable, Making, Evolves, FoundNone, MakesLast;
    StepAt(run, acts, 0);
    ProbeStarts(run[0], t, n, s);
    made := ProbeGoesOn(run, acts, t, n, s, if run[0].nodes[n].link.Root? then PLoad else Upgrade, 1);
  }

  // ---- Guards over a run ------------------------------------------------------------------------------------

  /** A step of some call, which makes a guard on the shard. */
  ghost predicate Makes(sys: Sys, action: Action, h: Home)
    requires Enabled(sys, action)
  {
    action.Run? && Apply(sys, action).guards == sys.guards + multiset{h}
  }

  /** The guards made on the shard by the first `i` actions. */
  ghost function Made(run: seq<Sys>, acts: seq<Action>, h: Home, i: nat): nat
    requires Performs(run, acts) && i <= |acts|
  {
    if i == 0 then 0 else Made(run, acts, h, i - 1) + One(Makes(run[i - 1], acts[i - 1], h))
  }

  ghost function Cloned(acts: seq<Action>, h: Home, i: nat): nat
    requires i <= |acts|
  {
    if i == 0 then 0 else Cloned(acts, h, i - 1) + One(acts[i - 1] == CloneGuard(h))
  }

  predicate DropsGuard(action: Action, h: Home) {
    action.DropGuard? && action.home == h
  }

  ghost function Dropped(acts: seq<Action>, h: Home, i: nat): nat
    requires i <= |acts|
  {
    if i == 0 then 0 else Dropped(acts, h, i - 1) + One(DropsGuard(acts[i - 1], h))
  }

  lemma GuardsStep(sys: Sys, action: Action, h: Home)
    requires Enabled(sys, action)
    ensures Apply(sys, action).guards[h] + One(DropsGuard(action, h))
         == sys.guards[h] + One(Makes(sys, action, h)) + One(action == CloneGuard(h))
  {
    hide Perform, Safe, Allowed, Unpinned, StepWaiter, SetShard, SetLife, SetHandles;
    if action.Run? {
      CreateShape(sys, Last(sys.threads[action.t]), action.ch);
      var guards' := Apply(sys, action).guards;
      assert guards' == sys.guards + multiset{h} ==> guards'[h] == sys.guards[h] + 1;
    } else {
      StartShape(sys, action, 0);
    }
  }

  /** The guards on a shard are those that calls have made and the clones, less one for each drop. */
  lemma {:induction false} GuardsCounted(run: seq<Sys>, acts: seq<Action>, h: Home, i: nat)
    requires Performs(run, acts) && Init(run[0]) && i <= |acts|
    ensures run[i].guards[h] == Made(run, acts, h, i) + Cloned(acts, h, i) - Dropped(acts, h, i)
  {
    hide Enabled, Apply, Reachable, Makes;
    if i > 0 {
      GuardsCounted(run, acts, h, i - 1);
      assert run[i - 1 + 1] == Apply(run[i - 1], acts[i - 1]);
      GuardsStep(run[i - 1], acts[i - 1], h);
    }
  }
}
