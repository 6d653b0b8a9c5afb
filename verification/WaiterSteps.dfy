/** Every transition keeps the waiters: one that sleeps through its event is about to be woken. */
module WaiterSteps {
  import opened Memory
  import opened Protocol
  import opened Ledger
  import opened Invariant
  import opened MemorySteps
  import opened StackSteps
  import opened DutySteps

  /** After a transition in which `f` gives way to `push`: a waiter that now sleeps through its event
      is to be woken by a pushed frame, or slept through it before and was not to be woken by `f`. */
  ghost predicate WakeGoal(nodes: seq<Node>, nodes': seq<Node>, f: Frame, push: seq<Frame>, w: Waiter, w': Waiter)
    requires ValidNode(nodes, w.node) && |nodes| <= |nodes'|
  {
    && |push| <= 2 && w'.node == w.node && w'.event == w.event
    && (Asleep(w') && Happened(nodes', w') ==>
          DebtFew(push, Wakes(w)) > 0 || (Asleep(w) && Happened(nodes, w) && Debt(f, Wakes(w)) == 0))
  }

  /** The waiter that a frame's transition leaves in the place of `w`. */
  ghost predicate Wake(sys: Sys, f: Frame, o: Outcome, i: nat) {
    && i < |sys.waiters| && |o.waiters| == |sys.waiters| && |sys.nodes| <= |o.nodes| && ValidNode(sys.nodes, sys.waiters[i].node)
    && o.waiters[i].pc == sys.waiters[i].pc && o.waiters[i].listener.Some? == sys.waiters[i].listener.Some?
    && WakeGoal(sys.nodes, o.nodes, f, o.push, sys.waiters[i], o.waiters[i])
  }

  ghost predicate HasWaiter(sys: Sys, i: nat) {
    i < |sys.waiters| && ValidNode(sys.nodes, sys.waiters[i].node)
  }

  /** No node stops or empties, and nobody was to be woken by the frame. */
  lemma QuietWakes(sys: Sys, f: Frame, o: Outcome, i: nat)
    requires HasWaiter(sys, i) && o.waiters == sys.waiters && |o.push| <= 2 && |sys.nodes| <= |o.nodes|
    requires var m := sys.waiters[i].node;
             (o.nodes[m].word.stopped ==> sys.nodes[m].word.stopped) && (o.nodes[m].word.count == 0 ==> sys.nodes[m].word.count == 0)
    requires Debt(f, Wakes(sys.waiters[i])) == 0
    ensures Wake(sys, f, o, i)
  {
    hide Debt, DebtFew;
  }

  lemma ArriveShardWakes(sys: Sys, n: nat, s: nat, u: Unit, pc: ShardPc, ch: Choice, i: nat)
    requires HasWaiter(sys, i) && ValidShard(sys.nodes, n, s)
    ensures Wake(sys, ArriveShard(n, s, u, pc), RunArriveShard(sys, n, s, u, pc, ch), i)
  {
    hide Wake;
    QuietWakes(sys, ArriveShard(n, s, u, pc), RunArriveShard(sys, n, s, u, pc, ch), i);
  }

  lemma ArriveNodeWakes(sys: Sys, n: nat, pc: NodePc, ch: Choice, i: nat)
    requires HasWaiter(sys, i) && ValidNode(sys.nodes, n) && sys.nodes[n].word.count >= 0
    ensures Wake(sys, ArriveNode(n, pc), RunArriveNode(sys, n, pc, ch), i)
  {
    hide Wake;
    QuietWakes(sys, ArriveNode(n, pc), RunArriveNode(sys, n, pc, ch), i);
  }

  lemma DepartShardWakes(sys: Sys, n: nat, s: nat, u: Unit, pinned: bool, i: nat)
    requires HasWaiter(sys, i) && ValidShard(sys.nodes, n, s)
    ensures Wake(sys, DepartShard(n, s, u, pinned), RunDepartShard(sys, n, s, u, pinned), i)
  {
    hide Wake;
    QuietWakes(sys, DepartShard(n, s, u, pinned), RunDepartShard(sys, n, s, u, pinned), i);
  }

  lemma FlushWakes(sys: Sys, n: nat, s: nat, i: nat)
    requires HasWaiter(sys, i) && ValidShard(sys.nodes, n, s)
    ensures Wake(sys, Flush(n, s), RunFlush(sys, n, s), i)
  {
    hide Wake;
    QuietWakes(sys, Flush(n, s), RunFlush(sys, n, s), i);
  }

  lemma FlushIfAliveWakes(sys: Sys, n: nat, s: nat, ch: Choice, i: nat)
    requires HasWaiter(sys, i) && ValidShard(sys.nodes, n, s)
    ensures Wake(sys, FlushIfAlive(n, s), Perform(sys, FlushIfAlive(n, s), ch), i)
  {
    hide Wake;
    QuietWakes(sys, FlushIfAlive(n, s), Perform(sys, FlushIfAlive(n, s), ch), i);
  }

  /** The departure that empties a stopped node is to notify. */
  lemma DepartNodeWakes(sys: Sys, n: nat, s: nat, i: nat)
    requires HasWaiter(sys, i) && ValidNode(sys.nodes, n)
    ensures Wake(sys, DepartNode(n, s), RunDepartNode(sys, n), i)
  {
  }

  lemma NotifyAllAt(waiters: seq<Waiter>, n: nat, event: Event, i: nat)
    requires i < |waiters|
    ensures var w, w' := waiters[i], NotifyAll(waiters, n, event)[i];
            && w'.node == w.node && w'.event == w.event && w'.pc == w.pc && w'.listener.Some? == w.listener.Some?
            && (if w.node == n && w.event == event then !Asleep(w') else w' == w)
  {
  }

  lemma NotifyZeroWakes(sys: Sys, n: nat, left: NodeWord, i: nat)
    requires HasWaiter(sys, i) && ValidNode(sys.nodes, n)
    ensures Wake(sys, NotifyZero(n, left), RunNotifyZero(sys, n, left), i)
  {
    hide NotifyAll;
    NotifyAllAt(sys.waiters, n, ZeroEvent, i);
  }

  lemma ReleaseWakes(sys: Sys, n: nat, left: NodeWord, i: nat)
    requires HasWaiter(sys, i) && IsChild(sys.nodes, n) && left.count == 0
    ensures Wake(sys, Release(n, left), RunRelease(sys, n, left), i)
  {
    hide Wake;
    QuietWakes(sys, Release(n, left), RunRelease(sys, n, left), i);
  }

  /** The stop that finds its node empty is to notify both events. */
  lemma BeginWakes(sys: Sys, n: nat, ch: Choice, i: nat)
    requires HasWaiter(sys, i) && ValidNode(sys.nodes, n)
    ensures Wake(sys, Stop(n, Begin), RunStop(sys, n, Begin, ch), i)
  {
  }

  lemma LatchWakes(sys: Sys, n: nat, j: nat, zero: bool, ch: Choice, i: nat)
    requires HasWaiter(sys, i) && ValidNode(sys.nodes, n)
    ensures Wake(sys, Stop(n, Latch(j, zero)), RunStop(sys, n, Latch(j, zero), ch), i)
  {
  }

  lemma SignalWakes(sys: Sys, n: nat, zero: bool, ch: Choice, i: nat)
    requires HasWaiter(sys, i) && ValidNode(sys.nodes, n)
    ensures Wake(sys, Stop(n, Notify(zero)), RunStop(sys, n, Notify(zero), ch), i)
  {
    hide NotifyAll;
    NotifyAllAt(sys.waiters, n, StopEvent, i);
  }

  lemma StopWakes(sys: Sys, n: nat, pc: StopPc, ch: Choice, i: nat)
    requires HasWaiter(sys, i) && ValidNode(sys.nodes, n)
    ensures Wake(sys, Stop(n, pc), RunStop(sys, n, pc, ch), i)
  {
    hide NotifyAll, LiveChildren;
    match pc
    case Begin => BeginWakes(sys, n, ch, i);
    case Latch(j, zero) => LatchWakes(sys, n, j, zero, ch, i);
    case Notify(zero) => SignalWakes(sys, n, zero, ch, i);
    case Snapshot(_, _, _) =>
    case Descend(_, _) =>
    case Zero => NotifyAllAt(sys.waiters, n, ZeroEvent, i);
  }

  lemma NewChildWakes(sys: Sys, p: nat, pc: ChildPc, ch: Choice, i: nat)
    requires HasWaiter(sys, i) && Safe(sys.nodes, NewChild(p, pc))
    ensures Wake(sys, NewChild(p, pc), RunNewChild(sys, p, pc, ch), i)
  {
    hide Wake;
    QuietWakes(sys, NewChild(p, pc), RunNewChild(sys, p, pc, ch), i);
  }

  lemma CollectWakes(sys: Sys, n: nat, pc: DropPc, i: nat)
    requires HasWaiter(sys, i) && Safe(sys.nodes, Collect(n, pc))
    ensures Wake(sys, Collect(n, pc), RunCollect(sys, n, pc), i)
  {
    hide Wake;
    QuietWakes(sys, Collect(n, pc), RunCollect(sys, n, pc), i);
  }

  lemma ProbeWakes(sys: Sys, n: nat, s: nat, pc: ProbePc, ch: Choice, i: nat)
    requires HasWaiter(sys, i) && ValidShard(sys.nodes, n, s)
    ensures Wake(sys, Probe(n, s, pc), RunProbe(sys, n, s, pc, ch), i)
  {
    hide Wake;
    QuietWakes(sys, Probe(n, s, pc), RunProbe(sys, n, s, pc, ch), i);
  }

  lemma RunWakes(sys: Sys, held: multiset<Token>, f: Frame, ch: Choice, i: nat)
    requires HasWaiter(sys, i) && DutyFacts(sys, held, f, ch, 0)
    ensures Wake(sys, f, Perform(sys, f, ch), i)
  {
    hide Wake, HasWaiter, Forest, Registries, NeedsKey, NeedsRelease;
    hide RunArriveShard, RunArriveNode, RunDepartShard, RunFlush, RunDepartNode, RunNotifyZero, RunRelease, RunStop;
    hide RunNewChild, RunCollect, RunProbe;
    match f
    case ArriveShard(n, s, u, pc) => ArriveShardWakes(sys, n, s, u, pc, ch, i);
    case ArriveNode(n, pc) => ArriveNodeWakes(sys, n, pc, ch, i);
    case DepartShard(n, s, u, pinned) => DepartShardWakes(sys, n, s, u, pinned, i);
    case FlushIfAlive(n, s) => FlushIfAliveWakes(sys, n, s, ch, i);
    case Flush(n, s) => FlushWakes(sys, n, s, i);
    case DepartNode(n, s) => DepartNodeWakes(sys, n, s, i);
    case NotifyZero(n, left) => NotifyZeroWakes(sys, n, left, i);
    case Release(n, left) => ReleaseWakes(sys, n, left, i);
    case Stop(n, pc) => StopWakes(sys, n, pc, ch, i);
    case NewChild(p, pc) => NewChildWakes(sys, p, pc, ch, i);
    case Collect(n, pc) => CollectWakes(sys, n, pc, i);
    case Probe(n, s, pc) => ProbeWakes(sys, n, s, pc, ch, i);
  }

  // ---- Every transition ---------------------------------------------------------------------------------

  lemma WakesIsDuty(w: Waiter)
    ensures !IsUnit(Wakes(w))
  {
  }

  /** A live node stays alive while a frame runs. */
  lemma LiveLasts(sys: Sys, t: nat, ch: Choice, n: nat)
    requires Inv(sys) && Enabled(sys, Run(t, ch)) && n < |sys.nodes| && sys.nodes[n].life.Live?
    ensures var nodes' := Advance(sys, t, ch).nodes; n < |nodes'| && nodes'[n].life.Live?
  {
    hide Inv, ThreadTokens, Balanced, Perform, Allowed, Safe, Words, Latches, Registries, Stacks, StackOk, FrameOk;
    hide CollectsOwed, Uses;
    var f := Last(sys.threads[t]);
    TopFacts(sys, t);
    if f.Collect? && f.dpc.Free? { FreeShape(sys, f, ch); } else { RunKeepsLives(sys, f, ch); }
  }

  lemma StaysStopped(nodes: seq<Node>, nodes': seq<Node>, n: nat)
    requires MemoryOk(nodes, nodes') && n < |nodes|
    ensures n < |nodes'| && (nodes[n].word.stopped ==> nodes'[n].word.stopped)
  {
    assert NodeEvolves(nodes[n], nodes'[n]);
  }

  lemma WaitersFacts(sys: Sys, i: nat)
    requires Inv(sys) && i < |sys.waiters|
    ensures WaiterOk(sys.nodes, ThreadTokens(sys.threads), sys.waiters[i]) && HasWaiter(sys, i)
  {
    hide ThreadTokens, Balanced, Words, Latches, Registries, Stacks, Lives, Duties, Departures;
  }

  ghost predicate Notified(w: Waiter) {
    w.listener == Some(true)
  }

  /** Frames notify the waiters of stopped nodes only. */
  lemma FrameNotifies(sys: Sys, f: Frame, ch: Choice, i: nat)
    requires FrameOk(sys.nodes, f) && Allowed(sys.nodes, f, ch) && i < |sys.waiters| && sys.waiters[i].node < |sys.nodes|
    ensures var waiters' := Perform(sys, f, ch).waiters;
            |waiters'| == |sys.waiters| && (Notified(waiters'[i]) ==> Notified(sys.waiters[i]) || sys.nodes[sys.waiters[i].node].word.stopped)
  {
    hide LiveChildren, SetShard, SetNode, SetLife, SetHandles, SetChildren, Registered, Plus, Minus, NewNode, SeenOk, LeftOk, AllStopped;
    hide Listed, ChildrenOf;
  }

  lemma WakeKeeps(sys: Sys, f: Frame, o: Outcome, i: nat, held: multiset<Token>, held': multiset<Token>)
    requires i < |sys.waiters| && WaiterOk(sys.nodes, held, sys.waiters[i]) && Wake(sys, f, o, i) && DebtsMove(held, held', f, o.push)
    requires sys.waiters[i].node < |sys.nodes| && sys.waiters[i].node < |o.nodes|
    requires var n := sys.waiters[i].node;
             (sys.nodes[n].word.stopped ==> o.nodes[n].word.stopped) && (sys.nodes[n].life.Live? ==> o.nodes[n].life.Live?)
             && (Notified(o.waiters[i]) ==> Notified(sys.waiters[i]) || sys.nodes[n].word.stopped)
    ensures WaiterOk(o.nodes, held', o.waiters[i])
  {
    hide Debt, DebtFew;
    WakesIsDuty(sys.waiters[i]);
  }

  lemma WaiterNode(sys: Sys, held: multiset<Token>, i: nat)
    requires i < |sys.waiters| && WaiterOk(sys.nodes, held, sys.waiters[i])
    ensures sys.waiters[i].node < |sys.nodes|
  {
  }

  lemma WaiterCount(sys: Sys, f: Frame, ch: Choice)
    requires Safe(sys.nodes, f) && Allowed(sys.nodes, f, ch)
    ensures |Perform(sys, f, ch).waiters| == |sys.waiters|
  {
    hide SetShard, SetNode, LiveChildren, Registered, SetLife, SetChildren, SetHandles;
  }

  lemma RunWaiters(sys: Sys, t: nat, ch: Choice)
    requires Inv(sys) && Enabled(sys, Run(t, ch)) && MemoryOk(sys.nodes, Advance(sys, t, ch).nodes)
    ensures var sys' := Advance(sys, t, ch); Waiters(sys'.nodes, ThreadTokens(sys'.threads), sys'.waiters)
  {
    hide Inv, ThreadTokens, Balanced, Perform, Allowed, Safe, Stacks, StackOk, FrameOk, CollectsOwed, Uses;
    hide DutyFacts, DebtsMove, Wake, WaiterOk, MemoryOk, HasWaiter;
    var f, held, sys' := Last(sys.threads[t]), ThreadTokens(sys.threads), Advance(sys, t, ch);
    var o := Perform(sys, f, ch);
    TopFacts(sys, t);
    RunDebts(sys, t, ch);
    DutyFactsHold(sys, t, ch, 0);
    WaiterCount(sys, f, ch);
    forall i | 0 <= i < |sys'.waiters| ensures WaiterOk(sys'.nodes, ThreadTokens(sys'.threads), sys'.waiters[i]) {
      WaitersFacts(sys, i);
      RunWakes(sys, held, f, ch, i);
      WaiterNode(sys, held, i);
      StaysStopped(sys.nodes, sys'.nodes, sys.waiters[i].node);
      if sys.nodes[sys.waiters[i].node].life.Live? { LiveLasts(sys, t, ch, sys.waiters[i].node); }
      FrameNotifies(sys, f, ch, i);
      WakeKeeps(sys, f, o, i, held, ThreadTokens(sys'.threads));
    }
  }

  /** A waiter's own step: it only goes to sleep after a failed check. */
  lemma StepWaiterOk(nodes: seq<Node>, held: multiset<Token>, w: Waiter)
    requires WaiterOk(nodes, held, w)
    ensures WaiterOk(nodes, held, StepWaiter(nodes, w))
  {
  }

  lemma WaiterLasts(nodes: seq<Node>, nodes': seq<Node>, held: multiset<Token>, held': multiset<Token>, w: Waiter)
    requires WaiterOk(nodes, held, w) && |nodes| <= |nodes'| && nodes'[w.node].word == nodes[w.node].word
    requires nodes'[w.node].life == nodes[w.node].life || w.pc.Gone?
    requires Wakes(w) in held ==> Wakes(w) in held'
    ensures WaiterOk(nodes', held', w)
  {
  }

  lemma FreshWaiter(sys: Sys, action: Action)
    requires Inv(sys) && Enabled(sys, action) && action.StartWait?
    ensures forall held :: WaiterOk(sys.nodes, held, Waiter(action.n, action.event, None, Idle))
  {
    hide Inv;
    LivesFacts(sys);
  }

  lemma HeldGrows(sys: Sys, action: Action, x: Token)
    requires Enabled(sys, action) && !action.Run? && !IsUnit(x) && x in ThreadTokens(sys.threads)
    ensures x in ThreadTokens(Apply(sys, action).threads)
  {
    hide ThreadTokens, Started, Apply, DebtFew, Enabled;
    StartDebts(sys, action);
    NothingOwed(x);
  }

  lemma DroppedWaiterOk(nodes: seq<Node>, held: multiset<Token>, w: Waiter)
    requires WaiterOk(nodes, held, w)
    ensures WaiterOk(nodes, held, w.(pc := Gone, listener := None))
  {
  }

  lemma StartWords(sys: Sys, action: Action, n: nat)
    requires Enabled(sys, action) && !action.Run? && n < |sys.nodes|
    ensures var nodes' := Apply(sys, action).nodes;
            |sys.nodes| <= |nodes'| && nodes'[n].word == sys.nodes[n].word
            && (nodes'[n].life == sys.nodes[n].life || (action.StartCollect? && n == action.n))
  {
    hide Unpinned, StepWaiter;
  }

  lemma StartWaiter(sys: Sys, action: Action, i: nat)
    requires Inv(sys) && Enabled(sys, action) && !action.Run? && i < |sys.waiters|
    ensures var sys' := Apply(sys, action); i < |sys'.waiters| && WaiterOk(sys'.nodes, ThreadTokens(sys'.threads), sys'.waiters[i])
  {
    hide Inv, ThreadTokens, Perform, Allowed, Safe, WaiterOk, StepWaiter, HasWaiter, Wakes;
    var w, held, sys' := sys.waiters[i], ThreadTokens(sys.threads), Apply(sys, action);
    WaitersFacts(sys, i);
    WaiterNode(sys, held, i);
    if action.RunWaiter? && action.w == i {
      StepWaiterOk(sys.nodes, held, w);
    } else if action.DropWaiter? && action.w == i {
      DroppedWaiterOk(sys.nodes, held, w);
    } else {
      WakesIsDuty(w);
      if Wakes(w) in held { HeldGrows(sys, action, Wakes(w)); }
      StartWords(sys, action, w.node);
      WaiterLasts(sys.nodes, sys'.nodes, held, ThreadTokens(sys'.threads), w);
    }
  }

  lemma StartWaiters(sys: Sys, action: Action)
    requires Inv(sys) && Enabled(sys, action) && !action.Run?
    ensures var sys' := Apply(sys, action); Waiters(sys'.nodes, ThreadTokens(sys'.threads), sys'.waiters)
  {
    hide Inv, ThreadTokens, Balanced, Perform, Allowed, Safe, DebtsMove, WaiterOk, StepWaiter, HasWaiter;
    var sys', held' := Apply(sys, action), ThreadTokens(Apply(sys, action).threads);
    forall i: nat | i < |sys'.waiters| ensures WaiterOk(sys'.nodes, held', sys'.waiters[i]) {
      if i < |sys.waiters| {
        StartWaiter(sys, action, i);
      } else {
        FreshWaiter(sys, action);
      }
    }
  }

  /** Every transition keeps the waiters. */
  lemma WaitersStep(sys: Sys, action: Action)
    requires Inv(sys) && Enabled(sys, action) && MemoryOk(sys.nodes, Apply(sys, action).nodes)
    ensures var sys' := Apply(sys, action); Waiters(sys'.nodes, ThreadTokens(sys'.threads), sys'.waiters)
  {
    hide Inv, ThreadTokens, Waiters, Perform, Allowed, Safe, Unpinned, StepWaiter, MemoryOk, SetShard;
    if action.Run? { RunWaiters(sys, action.t, action.ch); } else { StartWaiters(sys, action); }
  }
}
