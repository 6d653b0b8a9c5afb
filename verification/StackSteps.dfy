/** Every transition keeps every stack well formed: what each frame knows stays true, callers wait
    for their callees, and every node that a call uses is alive or is the one it collects. */
module StackSteps {
  import opened Memory
  import opened Protocol
  import opened Ledger
  import opened Invariant
  import opened MemorySteps

  /** `g` can take the place of `f` on a stack. */
  ghost predicate Continues(f: Frame, g: Frame) {
    match f
    case ArriveShard(n, s, unit, _) => g.ArriveShard? && g.n == n && g.s == s && g.unit == unit
    case ArriveNode(n, _) => g.ArriveNode? && g.n == n
    case Stop(_, _) => g.Stop?
    case NewChild(_, _) => g.NewChild?
    case Collect(n, _) => g.Collect? && g.n == n
    case Probe(_, _, _) => g.Probe? || (g.ArriveShard? && g.unit == Local)
    case _ => Departing(f) && Climbs(f.n, g)
  }

  /** The frames that replace `f`, in the new memory, on a stack that starts with `bottom`. */
  ghost predicate PushOk(nodes': seq<Node>, bottom: Frame, f: Frame, o: Outcome) {
    && |o.push| <= 2
    && (forall j :: 0 <= j < |o.push| ==> FrameOk(nodes', o.push[j]))
    && (forall j, m :: 0 <= j < |o.push| && m in Touches(o.push[j]) ==> Anchored(nodes', bottom, m))
    && (|o.push| > 0 ==> Continues(f, o.push[0]) && !Waiting(Last(o.push)))
    && (|o.push| == 2 ==> Calls(o.push[0], o.push[1]))
    && (o.arrived ==> o.push == [] && (f.ArriveNode? || (f.ArriveShard? && f.unit == Kid)))
    && (o.push == [] && !o.arrived ==> StartsCall(f))
  }

  ghost predicate SameLives(nodes: seq<Node>, nodes': seq<Node>) {
    |nodes| <= |nodes'| && forall n :: 0 <= n < |nodes| ==> nodes'[n].life == nodes[n].life
  }

  lemma EvolvesGrows(nodes: seq<Node>, nodes': seq<Node>)
    requires Evolves(nodes, nodes')
    ensures |nodes| <= |nodes'|
  {
  }

  lemma CollectSafe(nodes: seq<Node>, f: Frame)
    requires FrameOk(nodes, f) && f.Collect?
    ensures f.n < |nodes|
  {
  }

  /** A stack that does not move, while the lives of the nodes it uses do not change. */
  lemma StackLasts(nodes: seq<Node>, nodes': seq<Node>, stack: seq<Frame>)
    requires StackOk(nodes, stack) && Evolves(nodes, nodes') && Forest(nodes) && Forest(nodes')
    requires forall k, m :: 0 <= k < |stack| && m in Touches(stack[k]) && m < |nodes| ==> nodes'[m].life == nodes[m].life
    requires |stack| > 0 && stack[0].Collect? && stack[0].n < |nodes| ==> nodes'[stack[0].n].life == nodes[stack[0].n].life
    ensures StackOk(nodes', stack)
  {
    hide FrameOk, Evolves, Forest, Calls, Waiting, StartsCall;
    forall k | 0 <= k < |stack| ensures FrameOk(nodes', stack[k]) { FrameOkLasts(nodes, nodes', stack[k]); }
    if |stack| > 0 && stack[0].Collect? { CollectSafe(nodes, stack[0]); CollectSafe(nodes', stack[0]); }
    EvolvesGrows(nodes, nodes');
    assert forall k :: 0 <= k < |stack| ==> FrameOk(nodes', stack[k]);
    assert forall k :: 0 < k < |stack| ==> Calls(stack[k - 1], stack[k]);
    forall k, m | 0 <= k < |stack| && m in Touches(stack[k]) ensures Anchored(nodes', stack[0], m) {
      assert Anchored(nodes, stack[0], m);
    }
    assert (|stack| > 0 ==> StartsCall(stack[0]) && !Waiting(Last(stack)));
    assert (|stack| > 0 && stack[0].Collect? ==> nodes'[stack[0].n].life.Dropping?);
  }

  lemma ResumeOk(nodes: seq<Node>, w: Frame)
    requires FrameOk(nodes, w)
    ensures FrameOk(nodes, Resume(w)) && Touches(Resume(w)) == Touches(w) && !Waiting(Resume(w))
    ensures StartsCall(Resume(w)) <==> StartsCall(w)
    ensures Resume(w).Collect? <==> w.Collect?
    ensures w.Collect? ==> Resume(w) == w
    ensures forall b :: Calls(b, w) ==> Calls(b, Resume(w))
  {
  }

  lemma ContinuesRole(f: Frame, g: Frame)
    requires Continues(f, g)
    ensures StartsCall(f) ==> StartsCall(g)
    ensures f.Collect? <==> g.Collect?
    ensures f.Collect? ==> f.n == g.n
    ensures forall b :: Calls(b, f) ==> Calls(b, g)
  {
  }

  lemma AnchoredBy(nodes: seq<Node>, bottom: Frame, bottom': Frame, m: nat)
    requires Anchored(nodes, bottom, m) && (bottom.Collect? ==> bottom'.Collect? && bottom'.n == bottom.n)
    ensures Anchored(nodes, bottom', m)
  {
  }

  lemma CallerNotWaiting(b: Frame, f: Frame)
    requires Calls(b, f) && StartsCall(f)
    ensures !Waiting(b)
  {
  }

  /** The stack that moved: its caller resumes. */
  lemma ReturnedStack(nodes: seq<Node>, nodes': seq<Node>, stack: seq<Frame>)
    requires StackOk(nodes, stack) && StackOk(nodes', stack) && |stack| > 1
    ensures StackOk(nodes', Front(Front(stack)) + [Resume(Last(Front(stack)))])
  {
    var k := |stack| - 2;
    var w := stack[k];
    assert FrameOk(nodes', w);
    hide FrameOk, Calls, Waiting, StartsCall, Touches, Resume;
    ResumeOk(nodes', w);
    assert w == Last(Front(stack));
    assert k > 0 ==> Calls(stack[k - 1], stack[k]);
    var after := Front(Front(stack)) + [Resume(Last(Front(stack)))];
    assert after == stack[..k] + [Resume(w)];
    assert forall j :: 0 <= j < |after| ==> FrameOk(nodes', after[j]);
    forall j | 0 < j < |after| ensures Calls(after[j - 1], after[j]) {
      assert Calls(stack[j - 1], stack[j]);
    }
    forall j, m | 0 <= j < |after| && m in Touches(after[j]) ensures Anchored(nodes', after[0], m) {
      assert m in Touches(stack[j]);
      assert Anchored(nodes', stack[0], m);
      AnchoredBy(nodes', stack[0], after[0], m);
    }
  }

  /** The stack that moved: its top frame is replaced. */
  lemma PushedStack(nodes: seq<Node>, nodes': seq<Node>, stack: seq<Frame>, o: Outcome)
    requires StackOk(nodes', stack) && |stack| > 0
    requires PushOk(nodes', stack[0], Last(stack), o) && !o.arrived
    ensures StackOk(nodes', Front(stack) + o.push)
  {
    hide FrameOk, Calls, StartsCall, Touches, Continues, Waiting, Departing;
    var f, base := Last(stack), Front(stack);
    if |base| > 0 {
      assert Calls(stack[|base| - 1], stack[|base|]);
    }
    if o.push == [] {
      if |base| > 0 { CallerNotWaiting(Last(base), f); }
    } else {
      ContinuesRole(f, o.push[0]);
    }
    var after := base + o.push;
    forall j | 0 <= j < |after| ensures FrameOk(nodes', after[j]) {
      if j < |base| { assert FrameOk(nodes', stack[j]); } else { assert FrameOk(nodes', o.push[j - |base|]); }
    }
    forall j | 0 < j < |after| ensures Calls(after[j - 1], after[j]) {
      if j <= |base| { assert Calls(stack[j - 1], stack[j]); }
    }
    forall j, m | 0 <= j < |after| && m in Touches(after[j]) ensures Anchored(nodes', after[0], m) {
      if j < |base| { assert m in Touches(stack[j]); } else { assert m in Touches(o.push[j - |base|]); }
      assert Anchored(nodes', stack[0], m);
      AnchoredBy(nodes', stack[0], after[0], m);
    }
  }

  // ---- The frames that a transition pushes ----------------------------------------------------------

  ghost predicate ParentsLive(nodes: seq<Node>) {
    forall c: nat :: IsChild(nodes, c) && !nodes[c].life.Freed? ==> nodes[c].link.parent < |nodes| && nodes[nodes[c].link.parent].life.Live?
  }

  /** The nodes that the frame uses are alive, or collected by its stack; so are their parents. */
  ghost predicate Uses(nodes: seq<Node>, bottom: Frame, f: Frame) {
    && (forall m :: m in Touches(f) ==> Anchored(nodes, bottom, m))
    && ParentsLive(nodes)
  }

  lemma PushNone(nodes': seq<Node>, bottom: Frame, f: Frame, o: Outcome)
    requires o.push == [] && (if o.arrived then f.ArriveNode? || (f.ArriveShard? && f.unit == Kid) else StartsCall(f))
    ensures PushOk(nodes', bottom, f, o)
  {
  }

  lemma PushOne(nodes': seq<Node>, bottom: Frame, f: Frame, o: Outcome, g: Frame)
    requires o.push == [g] && !o.arrived && FrameOk(nodes', g) && Continues(f, g) && !Waiting(g)
    requires forall m :: m in Touches(g) ==> Anchored(nodes', bottom, m)
    ensures PushOk(nodes', bottom, f, o)
  {
    hide FrameOk, Continues, Waiting, Touches, Anchored;
  }

  lemma PushTwo(nodes': seq<Node>, bottom: Frame, f: Frame, o: Outcome, g: Frame, h: Frame)
    requires o.push == [g, h] && !o.arrived && FrameOk(nodes', g) && FrameOk(nodes', h) && Continues(f, g) && !Waiting(h) && Calls(g, h)
    requires forall m :: m in Touches(g) || m in Touches(h) ==> Anchored(nodes', bottom, m)
    ensures PushOk(nodes', bottom, f, o)
  {
    hide FrameOk, Continues, Waiting, Touches, Anchored, Calls;
  }

  lemma ArriveShardPush(sys: Sys, bottom: Frame, n: nat, s: nat, u: Unit, pc: ShardPc, ch: Choice)
    requires Words(sys.nodes) && FrameOk(sys.nodes, ArriveShard(n, s, u, pc)) && Uses(sys.nodes, bottom, ArriveShard(n, s, u, pc))
    requires !pc.Wait?
    ensures PushOk(RunArriveShard(sys, n, s, u, pc, ch).nodes, bottom, ArriveShard(n, s, u, pc), RunArriveShard(sys, n, s, u, pc, ch))
  {
    hide PushOk, WordOk, Forest, SetShard;
    var f, o := ArriveShard(n, s, u, pc), RunArriveShard(sys, n, s, u, pc, ch);
    var word := sys.nodes[n].shards[s].word;
    assert ShardOk(word) && Anchored(sys.nodes, bottom, n);
    match pc
    case Load => PushOne(o.nodes, bottom, f, o, ArriveShard(n, s, u, Loop(word)));
    case Loop(seen) =>
      if !seen.arrived {
        PushTwo(o.nodes, bottom, f, o, ArriveShard(n, s, u, Wait(seen)), ArriveNode(n, NLoad));
      } else if word == seen && !ch.spurious {
        PushNone(o.nodes, bottom, f, o);
      } else {
        PushOne(o.nodes, bottom, f, o, ArriveShard(n, s, u, Loop(word)));
      }
    case Cas(seen) =>
      if word == seen {
        PushNone(o.nodes, bottom, f, o);
      } else {
        PushTwo(o.nodes, bottom, f, o, ArriveShard(n, s, u, Loop(word)), DepartNode(n, s));
      }
  }

  lemma ArriveNodePush(sys: Sys, bottom: Frame, n: nat, pc: NodePc, ch: Choice)
    requires Words(sys.nodes) && FrameOk(sys.nodes, ArriveNode(n, pc)) && Uses(sys.nodes, bottom, ArriveNode(n, pc))
    requires !pc.NWait? && Allowed(sys.nodes, ArriveNode(n, pc), ch)
    ensures PushOk(RunArriveNode(sys, n, pc, ch).nodes, bottom, ArriveNode(n, pc), RunArriveNode(sys, n, pc, ch))
  {
    hide PushOk, ShardOk, Forest, SetNode;
    var f, o := ArriveNode(n, pc), RunArriveNode(sys, n, pc, ch);
    var word := sys.nodes[n].word;
    assert WordOk(sys.nodes, n, word) && Anchored(sys.nodes, bottom, n);
    if o.arrived {
      PushNone(o.nodes, bottom, f, o);
    } else {
      match pc
      case NLoad => PushOne(o.nodes, bottom, f, o, ArriveNode(n, NLoop(word)));
      case NLoop(seen) =>
        if !seen.arrived {
          var p := sys.nodes[n].link.parent;
          PushTwo(o.nodes, bottom, f, o, ArriveNode(n, NWait(seen, p, ch.index)), ArriveShard(p, ch.index, Kid, Load));
        } else {
          PushOne(o.nodes, bottom, f, o, ArriveNode(n, NLoop(word)));
        }
      case NCas(seen, p, index) =>
        assert Anchored(sys.nodes, bottom, p);
        PushTwo(o.nodes, bottom, f, o, ArriveNode(n, NLoop(word)), DepartShard(p, index, Kid, true));
    }
  }

  lemma DepartShardPush(sys: Sys, bottom: Frame, n: nat, s: nat, u: Unit, pinned: bool)
    requires FrameOk(sys.nodes, DepartShard(n, s, u, pinned)) && Uses(sys.nodes, bottom, DepartShard(n, s, u, pinned))
    ensures PushOk(RunDepartShard(sys, n, s, u, pinned).nodes, bottom, DepartShard(n, s, u, pinned), RunDepartShard(sys, n, s, u, pinned))
  {
    if pinned { assert Anchored(sys.nodes, bottom, n); }
  }

  lemma FlushIfAlivePush(sys: Sys, bottom: Frame, n: nat, s: nat, ch: Choice)
    requires FrameOk(sys.nodes, FlushIfAlive(n, s))
    ensures PushOk(Perform(sys, FlushIfAlive(n, s), ch).nodes, bottom, FlushIfAlive(n, s), Perform(sys, FlushIfAlive(n, s), ch))
  {
  }

  lemma FlushPush(sys: Sys, bottom: Frame, n: nat, s: nat)
    requires FrameOk(sys.nodes, Flush(n, s)) && Uses(sys.nodes, bottom, Flush(n, s))
    ensures PushOk(RunFlush(sys, n, s).nodes, bottom, Flush(n, s), RunFlush(sys, n, s))
  {
    assert Anchored(sys.nodes, bottom, n);
  }

  /** A departure that empties a node finds one of its shards stopped, so the node is stopped or
      being collected. No stop can come between the departure and the exchange that follows it. */
  lemma DepartNodePush(sys: Sys, bottom: Frame, n: nat, s: nat)
    requires Words(sys.nodes) && Latches(sys.nodes) && FrameOk(sys.nodes, DepartNode(n, s)) && Uses(sys.nodes, bottom, DepartNode(n, s))
    requires sys.nodes[n].word.count > 0
    requires sys.nodes[n].word.count == 1 ==> !sys.nodes[n].shards[s].word.arrived
    requires WordOk(RunDepartNode(sys, n).nodes, n, RunDepartNode(sys, n).nodes[n].word)
    ensures PushOk(RunDepartNode(sys, n).nodes, bottom, DepartNode(n, s), RunDepartNode(sys, n))
  {
    assert Anchored(sys.nodes, bottom, n);
    var word := RunDepartNode(sys, n).nodes[n].word;
    assert word.count == 0 ==> sys.nodes[n].word.stopped || !sys.nodes[n].life.Live?;
  }

  lemma NotifyZeroPush(sys: Sys, bottom: Frame, n: nat, left: NodeWord)
    requires FrameOk(sys.nodes, NotifyZero(n, left)) && Uses(sys.nodes, bottom, NotifyZero(n, left))
    ensures PushOk(RunNotifyZero(sys, n, left).nodes, bottom, NotifyZero(n, left), RunNotifyZero(sys, n, left))
  {
    assert Anchored(sys.nodes, bottom, n);
  }

  lemma ReleasePush(sys: Sys, bottom: Frame, n: nat, left: NodeWord)
    requires Words(sys.nodes) && FrameOk(sys.nodes, Release(n, left)) && Uses(sys.nodes, bottom, Release(n, left))
    ensures PushOk(RunRelease(sys, n, left).nodes, bottom, Release(n, left), RunRelease(sys, n, left))
  {
    assert Anchored(sys.nodes, bottom, n);
  }

  lemma StopLatchPush(sys: Sys, bottom: Frame, n: nat, pc: StopPc, ch: Choice)
    requires FrameOk(sys.nodes, Stop(n, pc)) && Uses(sys.nodes, bottom, Stop(n, pc))
    requires pc.Begin? || pc.Latch? || pc.Notify? || pc.Zero?
    ensures PushOk(RunStop(sys, n, pc, ch).nodes, bottom, Stop(n, pc), RunStop(sys, n, pc, ch))
  {
    hide PushOk, NotifyAll;
    var f, o := Stop(n, pc), RunStop(sys, n, pc, ch);
    assert Anchored(sys.nodes, bottom, n);
    match pc
    case Begin =>
      if sys.nodes[n].word.stopped {
        PushNone(o.nodes, bottom, f, o);
      } else {
        PushOne(o.nodes, bottom, f, o, Stop(n, Latch(0, sys.nodes[n].word.count == 0)));
      }
    case Latch(i, zero) =>
      if i == |sys.nodes[n].shards| {
        PushOne(o.nodes, bottom, f, o, Stop(n, Notify(zero)));
      } else if sys.nodes[n].shards[i].word.(stopped := true) == FLUSHABLE {
        PushTwo(o.nodes, bottom, f, o, Stop(n, Latch(i + 1, zero)), Flush(n, i));
      } else {
        PushOne(o.nodes, bottom, f, o, Stop(n, Latch(i + 1, zero)));
      }
    case Notify(zero) => PushOne(o.nodes, bottom, f, o, Stop(n, Snapshot(0, {}, zero)));
    case Zero => PushNone(o.nodes, bottom, f, o);
  }

  lemma LiveChildrenAreChildren(nodes: seq<Node>, n: nat, s: nat)
    requires Registries(nodes) && ValidShard(nodes, n, s)
    ensures ChildrenOf(nodes, n, LiveChildren(nodes, n, s))
    ensures forall c :: c in LiveChildren(nodes, n, s) ==> nodes[c].link.shard == s && nodes[c].life.Live?
  {
    forall c | c in LiveChildren(nodes, n, s) ensures IsChild(nodes, c) && nodes[c].link.parent == n && nodes[c].link.shard == s {
      var k :| k in nodes[n].shards[s].children && nodes[n].shards[s].children[k] == c;
      assert EntryOk(nodes, n, s, k);
      assert nodes[c].link == Child(n, s, Some(k));
    }
  }

  lemma StopDescendPush(sys: Sys, bottom: Frame, n: nat, pc: StopPc, ch: Choice)
    requires Registries(sys.nodes) && FrameOk(sys.nodes, Stop(n, pc)) && Uses(sys.nodes, bottom, Stop(n, pc))
    requires (pc.Snapshot? || pc.Descend?) && Allowed(sys.nodes, Stop(n, pc), ch)
    ensures PushOk(RunStop(sys, n, pc, ch).nodes, bottom, Stop(n, pc), RunStop(sys, n, pc, ch))
  {
    hide PushOk, Registries, LiveChildren;
    var f, o := Stop(n, pc), RunStop(sys, n, pc, ch);
    assert Anchored(sys.nodes, bottom, n);
    match pc
    case Snapshot(i, work, zero) =>
      if i < |sys.nodes[n].shards| {
        LiveChildrenAreChildren(sys.nodes, n, i);
        PushOne(o.nodes, bottom, f, o, Stop(n, Snapshot(i + 1, work + LiveChildren(sys.nodes, n, i), zero)));
      } else {
        PushOne(o.nodes, bottom, f, o, Stop(n, Descend(work, zero)));
      }
    case Descend(work, zero) =>
      if work != {} {
        PushTwo(o.nodes, bottom, f, o, Stop(n, Descend(work - {ch.index}, zero)), Stop(ch.index, Begin));
      } else if zero {
        PushOne(o.nodes, bottom, f, o, Stop(n, Zero));
      } else {
        PushNone(o.nodes, bottom, f, o);
      }
  }

  lemma StopPush(sys: Sys, bottom: Frame, n: nat, pc: StopPc, ch: Choice)
    requires Words(sys.nodes) && Registries(sys.nodes) && FrameOk(sys.nodes, Stop(n, pc)) && Uses(sys.nodes, bottom, Stop(n, pc))
    requires Allowed(sys.nodes, Stop(n, pc), ch)
    ensures PushOk(RunStop(sys, n, pc, ch).nodes, bottom, Stop(n, pc), RunStop(sys, n, pc, ch))
  {
    hide Words, Registries, FrameOk, Uses, PushOk, RunStop, Allowed;
    if pc.Snapshot? || pc.Descend? {
      StopDescendPush(sys, bottom, n, pc, ch);
    } else {
      StopLatchPush(sys, bottom, n, pc, ch);
    }
  }

  lemma AllocPush(sys: Sys, bottom: Frame, p: nat, s: nat, ch: Choice)
    requires FrameOk(sys.nodes, NewChild(p, Alloc(s))) && Uses(sys.nodes, bottom, NewChild(p, Alloc(s)))
    ensures PushOk(RunNewChild(sys, p, Alloc(s), ch).nodes, bottom, NewChild(p, Alloc(s)), RunNewChild(sys, p, Alloc(s), ch))
  {
    assert Anchored(sys.nodes, bottom, p);
  }

  lemma RegisterPush(sys: Sys, bottom: Frame, p: nat, c: nat, ch: Choice)
    requires FrameOk(sys.nodes, NewChild(p, Register(c))) && Uses(sys.nodes, bottom, NewChild(p, Register(c)))
    ensures PushOk(RunNewChild(sys, p, Register(c), ch).nodes, bottom, NewChild(p, Register(c)), RunNewChild(sys, p, Register(c), ch))
  {
    assert Anchored(sys.nodes, bottom, p) && Anchored(sys.nodes, bottom, c);
  }

  lemma NewChildPush(sys: Sys, bottom: Frame, p: nat, pc: ChildPc, ch: Choice)
    requires FrameOk(sys.nodes, NewChild(p, pc)) && Uses(sys.nodes, bottom, NewChild(p, pc))
    ensures PushOk(RunNewChild(sys, p, pc, ch).nodes, bottom, NewChild(p, pc), RunNewChild(sys, p, pc, ch))
  {
    hide PushOk, Registered, NewNode;
    var f, o := NewChild(p, pc), RunNewChild(sys, p, pc, ch);
    match pc
    case Alloc(s) => AllocPush(sys, bottom, p, s, ch);
    case Register(c) => RegisterPush(sys, bottom, p, c, ch);
    case Check(c) =>
      assert Anchored(sys.nodes, bottom, p) && Anchored(sys.nodes, bottom, c);
      if sys.nodes[p].word.stopped {
        PushTwo(o.nodes, bottom, f, o, NewChild(p, Finish(c, true)), Stop(c, Begin));
      } else {
        PushOne(o.nodes, bottom, f, o, NewChild(p, Finish(c, false)));
      }
    case Finish(_, _) => PushNone(o.nodes, bottom, f, o);
  }

  lemma CollectPush(sys: Sys, n: nat, pc: DropPc)
    requires Words(sys.nodes) && FrameOk(sys.nodes, Collect(n, pc)) && sys.nodes[n].life.Dropping?
    ensures PushOk(RunCollect(sys, n, pc).nodes, Collect(n, pc), Collect(n, pc), RunCollect(sys, n, pc))
  {
    hide PushOk, ShardOk, WordOk;
    var f, o := Collect(n, pc), RunCollect(sys, n, pc);
    match pc
    case DropLatch(i) =>
      if i == |sys.nodes[n].shards| {
        PushOne(o.nodes, f, f, o, Collect(n, Deregister));
      } else if sys.nodes[n].shards[i].word.(stopped := true) == FLUSHABLE {
        PushTwo(o.nodes, f, f, o, Collect(n, DropLatch(i + 1)), Flush(n, i));
      } else {
        PushOne(o.nodes, f, f, o, Collect(n, DropLatch(i + 1)));
      }
    case Deregister => PushOne(o.nodes, f, f, o, Collect(n, Free));
    case Free => PushNone(o.nodes, f, f, o);
  }

  lemma ProbePush(sys: Sys, bottom: Frame, n: nat, s: nat, pc: ProbePc, ch: Choice)
    requires Words(sys.nodes) && FrameOk(sys.nodes, Probe(n, s, pc)) && Allowed(sys.nodes, Probe(n, s, pc), ch)
    ensures PushOk(RunProbe(sys, n, s, pc, ch).nodes, bottom, Probe(n, s, pc), RunProbe(sys, n, s, pc, ch))
  {
    hide PushOk, WordOk, Forest, ShardOk;
    var f, o := Probe(n, s, pc), RunProbe(sys, n, s, pc, ch);
    if o.push == [] {
      PushNone(o.nodes, bottom, f, o);
    } else {
      PushOne(o.nodes, bottom, f, o, o.push[0]);
    }
  }

  lemma RunPush(sys: Sys, bottom: Frame, f: Frame, ch: Choice)
    requires Words(sys.nodes) && Latches(sys.nodes) && Registries(sys.nodes) && FrameOk(sys.nodes, f) && Uses(sys.nodes, bottom, f)
    requires Safe(sys.nodes, f) && Allowed(sys.nodes, f, ch) && !Waiting(f)
    requires f.DepartNode? ==> sys.nodes[f.n].word.count > 0 && (sys.nodes[f.n].word.count == 1 ==> !sys.nodes[f.n].shards[f.s].word.arrived)
                               && WordOk(RunDepartNode(sys, f.n).nodes, f.n, RunDepartNode(sys, f.n).nodes[f.n].word)
    requires f.Collect? ==> bottom == f && sys.nodes[f.n].life.Dropping?
    ensures PushOk(Perform(sys, f, ch).nodes, bottom, f, Perform(sys, f, ch))
  {
    hide Words, Latches, Registries, FrameOk, Uses, PushOk, RunArriveShard, RunArriveNode, RunDepartShard, RunFlush;
    hide RunDepartNode, RunNotifyZero;
    hide RunRelease, RunStop, RunNewChild, RunCollect, RunProbe;
    match f
    case ArriveShard(n, s, u, pc) => ArriveShardPush(sys, bottom, n, s, u, pc, ch);
    case ArriveNode(n, pc) => ArriveNodePush(sys, bottom, n, pc, ch);
    case DepartShard(n, s, u, pinned) => DepartShardPush(sys, bottom, n, s, u, pinned);
    case FlushIfAlive(n, s) => FlushIfAlivePush(sys, bottom, n, s, ch);
    case Flush(n, s) => FlushPush(sys, bottom, n, s);
    case DepartNode(n, s) => DepartNodePush(sys, bottom, n, s);
    case NotifyZero(n, left) => NotifyZeroPush(sys, bottom, n, left);
    case Release(n, left) => ReleasePush(sys, bottom, n, left);
    case Stop(n, pc) => StopPush(sys, bottom, n, pc, ch);
    case NewChild(p, pc) => NewChildPush(sys, bottom, p, pc, ch);
    case Collect(n, pc) => CollectPush(sys, n, pc);
    case Probe(n, s, pc) => ProbePush(sys, bottom, n, s, pc, ch);
  }

  // ---- Every transition -----------------------------------------------------------------------------

  /** A node's count is that of its arrived shards and of the calls that own a unit. */
  lemma NodeCount(sys: Sys, n: nat)
    requires Balanced(sys.nodes, sys.guards, ThreadTokens(sys.threads)) && n < |sys.nodes|
    ensures sys.nodes[n].word.count == WordTokens(sys.nodes)[NodeUnit(n)] + ThreadTokens(sys.threads)[NodeUnit(n)]
  {
    hide WordTokens, ThreadTokens;
    assert IsUnit(NodeUnit(n));
  }

  lemma DepartOwns(f: Frame)
    requires f.DepartNode?
    ensures NodeUnit(f.n) in Tokens(f)
  {
  }

  /** The last unit of a node that a departing call owns is not that of an arrived shard. */
  lemma LastUnit(sys: Sys, t: nat)
    requires Balanced(sys.nodes, sys.guards, ThreadTokens(sys.threads))
    requires t < |sys.threads| && |sys.threads[t]| > 0 && Last(sys.threads[t]).DepartNode? && Safe(sys.nodes, Last(sys.threads[t]))
    ensures var f := Last(sys.threads[t]);
            sys.nodes[f.n].word.count > 0 && (sys.nodes[f.n].word.count == 1 ==> !sys.nodes[f.n].shards[f.s].word.arrived)
  {
    hide WordTokens, ThreadTokens, Tokens, Balanced;
    var f := Last(sys.threads[t]);
    FrameHolds(sys.threads, t, |sys.threads[t]| - 1);
    DepartOwns(f);
    NodeCount(sys, f.n);
    if sys.nodes[f.n].shards[f.s].word.arrived { ArrivedShardOwns(sys.nodes, f.n, f.s); }
  }

  /** Two frames of different threads hold a token twice. */
  lemma HeldTwice(threads: seq<seq<Frame>>, t: nat, u: nat, k: nat, x: Token)
    requires t < |threads| && |threads[t]| == 1 && x in Tokens(threads[t][0])
    requires u < |threads| && u != t && k < |threads[u]| && x in Tokens(threads[u][k])
    ensures ThreadTokens(threads)[x] > 1
  {
    hide Tokens, ThreadTokens;
    var none: seq<Frame> := [];
    assert threads[t] == none + [threads[t][0]] && none + none == none;
    ReplaceTop(threads, t, none, [threads[t][0]], none);
    FrameHolds(threads[t := []], u, k);
  }

  /** A call that collects has a stack of its own. */
  lemma CollectAlone(nodes: seq<Node>, stack: seq<Frame>)
    requires StackOk(nodes, stack) && |stack| > 0 && Last(stack).Collect?
    ensures stack == [Last(stack)]
  {
    assert |stack| > 1 ==> Calls(stack[|stack| - 2], stack[|stack| - 1]);
  }

  lemma RunKeepsLives(sys: Sys, f: Frame, ch: Choice)
    requires Safe(sys.nodes, f) && Allowed(sys.nodes, f, ch) && !(f.Collect? && f.dpc.Free?)
    ensures SameLives(sys.nodes, Perform(sys, f, ch).nodes)
  {
  }

  /** No other thread uses a node whose destructor ends. */
  lemma FreedUnused(sys: Sys, t: nat, u: nat)
    requires Stacks(sys.nodes, sys.threads) && CollectsOwed(sys.nodes, ThreadTokens(sys.threads))
    requires t < |sys.threads| && u < |sys.threads| && u != t && |sys.threads[t]| == 1 && sys.threads[t][0].Collect?
    requires |sys.threads[u]| > 0
    ensures var n := sys.threads[t][0].n;
            && !(sys.threads[u][0].Collect? && sys.threads[u][0].n == n)
            && forall k :: 0 <= k < |sys.threads[u]| ==> n !in Touches(sys.threads[u][k])
  {
    hide ThreadTokens, FrameOk;
    var n := sys.threads[t][0].n;
    assert StackOk(sys.nodes, sys.threads[t]) && StackOk(sys.nodes, sys.threads[u]);
    if sys.threads[u][0].Collect? && sys.threads[u][0].n == n {
      HeldTwice(sys.threads, t, u, 0, Collecting(n));
    }
    forall k | 0 <= k < |sys.threads[u]| ensures n !in Touches(sys.threads[u][k]) {
      assert n in Touches(sys.threads[u][k]) ==> Anchored(sys.nodes, sys.threads[u][0], n);
    }
  }

  /** What the invariant says about the top frame of a stack. */
  lemma TopFacts(sys: Sys, t: nat)
    requires Inv(sys) && t < |sys.threads| && |sys.threads[t]| > 0
    ensures Words(sys.nodes) && Latches(sys.nodes) && Registries(sys.nodes) && Stacks(sys.nodes, sys.threads)
    ensures Balanced(sys.nodes, sys.guards, ThreadTokens(sys.threads)) && CollectsOwed(sys.nodes, ThreadTokens(sys.threads))
    ensures var stack := sys.threads[t];
            && StackOk(sys.nodes, stack) && FrameOk(sys.nodes, Last(stack)) && Safe(sys.nodes, Last(stack))
            && Uses(sys.nodes, stack[0], Last(stack)) && !Waiting(Last(stack))
            && (Last(stack).Collect? ==> stack == [Last(stack)] && Last(stack).n < |sys.nodes| && sys.nodes[Last(stack).n].life.Dropping?)
  {
    hide ThreadTokens, Balanced, Waiters, Words, Latches, Registries, Evolves, Anchored, Waiting, Calls;
    var stack := sys.threads[t];
    assert StackOk(sys.nodes, stack);
    if Last(stack).Collect? { CollectAlone(sys.nodes, stack); }
  }

  lemma TopPush(sys: Sys, t: nat, ch: Choice)
    requires Inv(sys) && Enabled(sys, Run(t, ch))
    requires MemoryOk(sys.nodes, Perform(sys, Last(sys.threads[t]), ch).nodes)
    ensures var f := Last(sys.threads[t]); PushOk(Perform(sys, f, ch).nodes, sys.threads[t][0], f, Perform(sys, f, ch))
  {
    hide Inv, ThreadTokens, Balanced, Latches, Registries, Evolves, StackOk, FrameOk, Uses, PushOk, CollectsOwed;
    hide Waiting;
    var f := Last(sys.threads[t]);
    TopFacts(sys, t);
    if f.DepartNode? { LastUnit(sys, t); }
    RunPush(sys, sys.threads[t][0], f, ch);
  }

  lemma StackKept(nodes: seq<Node>, nodes': seq<Node>, stack: seq<Frame>)
    requires StackOk(nodes, stack) && Words(nodes) && MemoryOk(nodes, nodes') && SameLives(nodes, nodes')
    ensures StackOk(nodes', stack)
  {
    hide FrameOk, Evolves, Forest, Latches, Calls, Touches, Anchored, Waiting, StartsCall, StackOk;
    StackLasts(nodes, nodes', stack);
  }

  lemma ArrivedHasCaller(nodes: seq<Node>, stack: seq<Frame>, f: Frame)
    requires StackOk(nodes, stack) && |stack| > 0 && f == Last(stack) && (f.ArriveNode? || (f.ArriveShard? && f.unit == Kid))
    ensures |stack| > 1
  {
    assert StartsCall(stack[0]);
  }

  lemma FreeShape(sys: Sys, f: Frame, ch: Choice)
    requires f.Collect? && f.dpc.Free? && Safe(sys.nodes, f) && Allowed(sys.nodes, f, ch)
    ensures Perform(sys, f, ch).push == [] && !Perform(sys, f, ch).arrived
    ensures Perform(sys, f, ch).nodes == SetLife(sys.nodes, f.n, Freed)
  {
  }

  lemma EmptyStackOk(nodes: seq<Node>)
    ensures StackOk(nodes, [])
  {
  }

  /** The moving thread's stack. */
  lemma MovedStack(sys: Sys, t: nat, ch: Choice)
    requires Inv(sys) && Enabled(sys, Run(t, ch))
    requires MemoryOk(sys.nodes, Advance(sys, t, ch).nodes)
    ensures StackOk(Advance(sys, t, ch).nodes, Advance(sys, t, ch).threads[t])
  {
    hide Inv, MemoryOk, ThreadTokens, FrameOk, Perform, Balanced, Words, Latches, Registries, Safe, Allowed;
    hide Touches, Uses, CollectsOwed, Stacks, StackOk, SameLives;
    var stack, nodes' := sys.threads[t], Advance(sys, t, ch).nodes;
    var f := Last(stack);
    var o := Perform(sys, f, ch);
    TopFacts(sys, t);
    TopPush(sys, t, ch);
    if f.Collect? && f.dpc.Free? {
      FreeShape(sys, f, ch);
      EmptyStackOk(nodes');
      assert Advance(sys, t, ch).threads[t] == [];
    } else {
      RunKeepsLives(sys, f, ch);
      StackKept(sys.nodes, nodes', stack);
      if o.arrived {
        ArrivedHasCaller(sys.nodes, stack, f);
        ReturnedStack(sys.nodes, nodes', stack);
        assert Advance(sys, t, ch).threads[t] == Front(Front(stack)) + [Resume(Last(Front(stack)))];
      } else {
        PushedStack(sys.nodes, nodes', stack, o);
      }
    }
  }

  /** The other threads' stacks. */
  lemma OtherStack(sys: Sys, t: nat, ch: Choice, u: nat)
    requires Inv(sys) && Enabled(sys, Run(t, ch)) && u < |sys.threads| && u != t
    requires MemoryOk(sys.nodes, Advance(sys, t, ch).nodes)
    ensures StackOk(Advance(sys, t, ch).nodes, sys.threads[u])
  {
    hide Inv, ThreadTokens, FrameOk, Perform, Balanced, Latches, Registries, Safe, Allowed, Touches, Uses;
    hide CollectsOwed, StackOk, Evolves;
    var nodes', f := Advance(sys, t, ch).nodes, Last(sys.threads[t]);
    TopFacts(sys, t);
    if f.Collect? && f.dpc.Free? {
      FreeShape(sys, f, ch);
      if |sys.threads[u]| > 0 {
        FreedUnused(sys, t, u);
        StackLasts(sys.nodes, nodes', sys.threads[u]);
      } else {
        EmptyStackOk(nodes');
      }
    } else {
      RunKeepsLives(sys, f, ch);
      StackKept(sys.nodes, nodes', sys.threads[u]);
    }
  }

  // ---- Calls that start -----------------------------------------------------------------------------

  lemma OneFrame(nodes: seq<Node>, f: Frame)
    requires FrameOk(nodes, f) && StartsCall(f) && !Waiting(f)
    requires forall m :: m in Touches(f) ==> m < |nodes| && nodes[m].life.Live?
    requires f.Collect? ==> nodes[f.n].life.Dropping?
    ensures StackOk(nodes, [f])
  {
  }

  lemma StopTokensKinds(n: nat, pc: StopPc, x: Token)
    ensures x in StopTokens(n, pc) ==> x.MustStop? || x.MustLatch? || x.MustSignal? || x.MustSnapshot? || x.MustNotify?
  {
    match pc
    case Begin =>
    case Latch(_, _) =>
    case Notify(_) =>
    case Snapshot(_, _, _) =>
    case Descend(_, _) =>
    case Zero =>
  }

  lemma RegisterTouches(f: Frame, n: nat)
    requires MustRegister(n) in Tokens(f)
    ensures n in Touches(f)
  {
    match f
    case ArriveShard(_, _, _, _) =>
    case ArriveNode(_, _) =>
    case DepartShard(_, _, _, _) =>
    case FlushIfAlive(_, _) =>
    case Flush(_, _) =>
    case DepartNode(_, _) =>
    case NotifyZero(_, _) =>
    case Release(_, _) =>
    case Stop(m, pc) => StopTokensKinds(m, pc, MustRegister(n));
    case NewChild(_, pc) =>
    case Collect(_, _) =>
    case Probe(_, _, _) =>
  }

  /** A node that nothing pins has been registered, if it is a child. */
  lemma UnpinnedHasKey(sys: Sys, n: nat)
    requires Inv(sys) && ValidNode(sys.nodes, n) && Unpinned(sys, n)
    ensures sys.nodes[n].link.Child? ==> sys.nodes[n].link.key.Some?
  {
    hide ThreadTokens, Balanced, Waiters, Words, Latches, Registries, Stacks, Lives, FlushesOwed, ReleasesOwed;
    hide LatchesOwed, StopsOwed, CollectsOwed;
    var held := ThreadTokens(sys.threads);
    assert RegistersOwed(sys.nodes, held);
    if sys.nodes[n].link.Child? && sys.nodes[n].link.key.None? {
      assert held[MustRegister(n)] == 1;
      var t, k := HeldByFrame(sys.threads, MustRegister(n));
      RegisterTouches(sys.threads[t][k], n);
    }
  }

  lemma LivesFacts(sys: Sys)
    requires Inv(sys)
    ensures Lives(sys.nodes, sys.guards) && Words(sys.nodes) && Stacks(sys.nodes, sys.threads)
  {
  }

  lemma StartedGuard(sys: Sys, n: nat, s: nat)
    requires Lives(sys.nodes, sys.guards) && Held(sys, n) && ValidShard(sys.nodes, n, s)
    ensures StackOk(sys.nodes, [ArriveShard(n, s, Local, Load)])
  {
    hide StackOk;
    OneFrame(sys.nodes, ArriveShard(n, s, Local, Load));
  }

  lemma StartedProbe(sys: Sys, n: nat, s: nat)
    requires ValidShard(sys.nodes, n, s)
    ensures StackOk(sys.nodes, [Probe(n, s, if sys.nodes[n].link.Root? then PLoad else Upgrade)])
  {
    hide StackOk;
    OneFrame(sys.nodes, Probe(n, s, if sys.nodes[n].link.Root? then PLoad else Upgrade));
  }

  lemma StartedStop(sys: Sys, n: nat, handles: nat)
    requires Lives(sys.nodes, sys.guards) && Held(sys, n)
    ensures StackOk(sys.nodes, [Stop(n, Begin)]) && StackOk(SetHandles(sys.nodes, n, handles), [Stop(n, Begin)])
  {
    hide StackOk;
    OneFrame(sys.nodes, Stop(n, Begin));
    OneFrame(SetHandles(sys.nodes, n, handles), Stop(n, Begin));
  }

  lemma StartedChild(sys: Sys, n: nat, s: nat)
    requires Lives(sys.nodes, sys.guards) && Held(sys, n) && ValidShard(sys.nodes, n, s)
    ensures StackOk(sys.nodes, [NewChild(n, Alloc(s))])
  {
    hide StackOk;
    OneFrame(sys.nodes, NewChild(n, Alloc(s)));
  }

  lemma StartedCollect(sys: Sys, n: nat)
    requires Words(sys.nodes) && ValidNode(sys.nodes, n) && (sys.nodes[n].link.Child? ==> sys.nodes[n].link.key.Some?)
    ensures StackOk(SetLife(sys.nodes, n, Dropping), [Collect(n, DropLatch(0))])
  {
    hide StackOk;
    OneFrame(SetLife(sys.nodes, n, Dropping), Collect(n, DropLatch(0)));
  }

  lemma StartedDrop(sys: Sys, h: Home)
    requires Lives(sys.nodes, sys.guards) && h in sys.guards && ValidShard(sys.nodes, h.node, h.shard)
    ensures StackOk(sys.nodes, [DepartShard(h.node, h.shard, Local, sys.nodes[h.node].link.Child?)])
  {
    hide StackOk;
    OneFrame(sys.nodes, DepartShard(h.node, h.shard, Local, sys.nodes[h.node].link.Child?));
  }

  /** The frame of a call that starts. */
  lemma StartedFrame(sys: Sys, action: Action, t: nat)
    requires Inv(sys) && Enabled(sys, action) && t < |sys.threads| && t < |Apply(sys, action).threads|
    requires !action.Run? && Apply(sys, action).threads[t] != sys.threads[t]
    ensures StackOk(Apply(sys, action).nodes, Apply(sys, action).threads[t])
  {
    hide Inv, ThreadTokens, StackOk, Words, Stacks, Lives, Perform, Safe, Allowed, Unpinned, SetShard, SetLife;
    hide SetHandles, StepWaiter;
    LivesFacts(sys);
    match action
    case StartGuard(_, n, s) => StartedGuard(sys, n, s);
    case StartProbe(_, n, s) => StartedProbe(sys, n, s);
    case StartStop(_, n) => StartedStop(sys, n, sys.nodes[n].handles);
    case StartChild(_, n, s) => StartedChild(sys, n, s);
    case StartCollect(_, n) =>
      UnpinnedHasKey(sys, n);
      StartedCollect(sys, n);
    case DropHandle(_, n) => StartedStop(sys, n, sys.nodes[n].handles - 1);
    case DropGuard(_, h) => StartedDrop(sys, h);
    case _ =>
  }

  lemma StartKeepsLives(sys: Sys, action: Action)
    requires Enabled(sys, action) && !action.Run? && !action.StartCollect?
    ensures SameLives(sys.nodes, Apply(sys, action).nodes)
  {
    hide Unpinned, StepWaiter;
  }

  lemma CollectUnused(sys: Sys, n: nat, u: nat)
    requires ValidNode(sys.nodes, n) && Unpinned(sys, n) && sys.nodes[n].life.Live? && u < |sys.threads| && StackOk(sys.nodes, sys.threads[u])
    ensures forall k :: 0 <= k < |sys.threads[u]| ==> n !in Touches(sys.threads[u][k])
    ensures |sys.threads[u]| > 0 && sys.threads[u][0].Collect? ==> sys.threads[u][0].n != n
  {
    hide FrameOk, Touches, Calls;
  }

  /** A stack that does not move when a call starts. */
  lemma StillStack(sys: Sys, action: Action, u: nat)
    requires Inv(sys) && Enabled(sys, action) && u < |sys.threads| && !action.Run?
    requires MemoryOk(sys.nodes, Apply(sys, action).nodes)
    ensures StackOk(Apply(sys, action).nodes, sys.threads[u])
  {
    hide Inv, FrameOk, StackOk, Evolves, Latches, Lives, Perform, Safe, Allowed, Unpinned, SetShard, SetHandles;
    hide StepWaiter, SameLives;
    LivesFacts(sys);
    var nodes' := Apply(sys, action).nodes;
    assert StackOk(sys.nodes, sys.threads[u]);
    if action.StartCollect? {
      CollectUnused(sys, action.n, u);
      StackLasts(sys.nodes, nodes', sys.threads[u]);
    } else {
      StartKeepsLives(sys, action);
      StackKept(sys.nodes, nodes', sys.threads[u]);
    }
  }

  /** Every transition keeps every stack well formed. */
  lemma StacksStep(sys: Sys, action: Action)
    requires Inv(sys) && Enabled(sys, action)
    requires MemoryOk(sys.nodes, Apply(sys, action).nodes)
    ensures Stacks(Apply(sys, action).nodes, Apply(sys, action).threads)
  {
    hide Inv, StackOk, MemoryOk, Perform, Safe, Allowed, Unpinned;
    var sys' := Apply(sys, action);
    assert |sys'.threads| == |sys.threads|;
    forall u | 0 <= u < |sys'.threads| ensures StackOk(sys'.nodes, sys'.threads[u]) {
      if action.Run? && u == action.t {
        MovedStack(sys, action.t, action.ch);
      } else if action.Run? {
        OtherStack(sys, action.t, action.ch, u);
      } else if sys'.threads[u] == sys.threads[u] {
        StillStack(sys, action, u);
      } else {
        StartedFrame(sys, action, u);
      }
    }
  }
}
