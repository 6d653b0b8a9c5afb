/** Interrupts on a whole forest: the protocol, joined with the listeners of every shard. A thread that
    latches a shard goes on only after it has drained that shard's waiters and woken each waker that
    it took. */
module Interrupts {
  import opened Memory
  import opened Protocol
  import opened Ledger
  import opened Invariant
  import opened StackSteps
  import opened Runs
  import opened Safety
  import Slabs
  import SL = StopListeners

  /** A thread that runs `Shard::stop`, and the position of its stop on that shard. */
  datatype Serving = Serving(h: Home, s: nat)

  datatype Joined = Joined(sys: Sys, shards: map<Home, SL.Sys>, busy: map<nat, Serving>)

  const QUIET := SL.Sys(false, false, Slabs.Empty(), [], [])

  function Shard(j: Joined, h: Home): SL.Sys {
    if h in j.shards then j.shards[h] else QUIET
  }

  datatype Event =
    | Step(action: Action)
    /** A listener of a shard is made, polled or dropped. */
    | Attend(h: Home, listening: SL.Action)
    /** A thread that is stopping a shard drains it, or wakes a waker. */
    | Serve(t: nat, waker: nat)
    /** It has woken all of them. */
    | Served(t: nat)

  /** The shard that a frame's transition latches. */
  function Latched(nodes: seq<Node>, f: Frame): Option<Home> {
    match f
    case Stop(n, Latch(i, _)) => if ValidShard(nodes, n, i) then Some(Home(n, i)) else None
    case Collect(n, DropLatch(i)) => if ValidShard(nodes, n, i) then Some(Home(n, i)) else None
    case _ => None
  }

  predicate Of(listening: SL.Action) {
    listening.NewListener? || listening.StartPoll? || listening.RunPoll? || listening.Drop?
  }

  predicate CanOccur(j: Joined, event: Event) {
    match event
    case Step(action) => Enabled(j.sys, action) && (action.Run? ==> action.t !in j.busy)
    case Attend(h, listening) => ValidShard(j.sys.nodes, h.node, h.shard) && Of(listening) && SL.Enabled(Shard(j, h), listening)
    case Serve(t, waker) => t in j.busy && SL.Enabled(Shard(j, j.busy[t].h), SL.RunStop(j.busy[t].s, waker))
    case Served(t) =>
      t in j.busy && j.busy[t].s < |Shard(j, j.busy[t].h).stoppers| && Shard(j, j.busy[t].h).stoppers[j.busy[t].s] == SL.Wake(multiset{})
  }

  /** A stop of the shard begins, and sets the bit. */
  ghost function Begun(shard: SL.Sys): SL.Sys {
    var more := SL.Apply(shard, SL.StartStop);
    SL.Apply(more, SL.RunStop(|shard.stoppers|, 0))
  }

  ghost function After(j: Joined, event: Event): Joined
    requires CanOccur(j, event)
  {
    match event
    case Step(action) =>
      var moved := j.(sys := Protocol.Apply(j.sys, action));
      if !action.Run? then moved
      else (match Latched(j.sys.nodes, Last(j.sys.threads[action.t]))
            case Some(h) =>
              moved.(shards := j.shards[h := Begun(Shard(j, h))], busy := j.busy[action.t := Serving(h, |Shard(j, h).stoppers|)])
            case None => moved)
    case Attend(h, listening) => j.(shards := j.shards[h := SL.Apply(Shard(j, h), listening)])
    case Serve(t, waker) =>
      var h := j.busy[t].h;
      j.(shards := j.shards[h := SL.Apply(Shard(j, h), SL.RunStop(j.busy[t].s, waker))])
    case Served(t) => j.(busy := j.busy - {t})
  }

  ghost predicate Start(j: Joined) {
    Init(j.sys) && j.shards == map[] && j.busy == map[]
  }

  ghost predicate Follows(j: Joined, j': Joined) {
    exists event :: CanOccur(j, event) && j' == After(j, event)
  }

  ghost predicate IsHistory(run: seq<Joined>) {
    |run| > 0 && Start(run[0]) && forall i :: 0 <= i < |run| - 1 ==> Follows(run[i], run[i + 1])
  }

  ghost predicate Occurs(j: Joined) {
    exists run :: IsHistory(run) && run[|run| - 1] == j
  }

  // ---- The invariant --------------------------------------------------------------------------------------

  /** Some thread is at work on the stop. */
  ghost predicate AtWork(j: Joined, h: Home, s: nat) {
    exists t :: t in j.busy && j.busy[t] == Serving(h, s)
  }

  /** The two machines agree about the stop bit, and each stop of the shard is done or being done. */
  ghost predicate ShardAgrees(j: Joined, h: Home) {
    && (h in j.shards ==> ValidShard(j.sys.nodes, h.node, h.shard))
    && (ValidShard(j.sys.nodes, h.node, h.shard) ==>
          var shard := Shard(j, h);
          && SL.Inv(shard) && shard.stopped == j.sys.nodes[h.node].shards[h.shard].word.stopped && (shard.stopped ==> shard.stoppers != [])
          && forall s: nat :: s < |shard.stoppers| ==>
               !shard.stoppers[s].Begin? && (shard.stoppers[s] == SL.Wake(multiset{}) || AtWork(j, h, s)))
  }

  ghost predicate BusyOk(j: Joined) {
    forall t :: t in j.busy ==>
      && t < |j.sys.threads| && j.sys.threads[t] != []
      && j.busy[t].h in j.shards && j.busy[t].s < |Shard(j, j.busy[t].h).stoppers| && !Shard(j, j.busy[t].h).stoppers[j.busy[t].s].Begin?
  }

  /** Nothing stays pending on a collected node: its shards are stopped. */
  ghost predicate FreedStopped(nodes: seq<Node>) {
    forall n: nat :: n < |nodes| && nodes[n].life.Freed? ==> AllStopped(nodes[n], |nodes[n].shards|)
  }

  ghost predicate JoinedOk(j: Joined) {
    Inv(j.sys) && FreedStopped(j.sys.nodes) && BusyOk(j) && forall h :: ShardAgrees(j, h)
  }

  // ---- Protocol transitions ---------------------------------------------------------------------------------

  /** Shards stop by latches only. */
  ghost predicate StopsAgree(nodes: seq<Node>, nodes': seq<Node>, latched: Option<Home>) {
    && |nodes| <= |nodes'|
    && (forall n: nat :: n < |nodes| ==> |nodes'[n].shards| == |nodes[n].shards|)
    && (forall n: nat, s: nat :: ValidShard(nodes', n, s) ==>
          nodes'[n].shards[s].word.stopped == ((ValidShard(nodes, n, s) && nodes[n].shards[s].word.stopped) || latched == Some(Home(n, s))))
  }

  lemma SameStops(nodes: seq<Node>, n: nat, w: NodeWord)
    requires ValidNode(nodes, n)
    ensures StopsAgree(nodes, nodes, None) && StopsAgree(nodes, SetNode(nodes, n, w), None)
  {
  }

  lemma ShardStops(nodes: seq<Node>, n: nat, s: nat, w: ShardWord)
    requires ValidShard(nodes, n, s)
    ensures w.stopped == nodes[n].shards[s].word.stopped ==> StopsAgree(nodes, SetShard(nodes, n, s, w), None)
    ensures w.stopped ==> StopsAgree(nodes, SetShard(nodes, n, s, w), Some(Home(n, s)))
  {
  }

  lemma ShardFrameStops(sys: Sys, f: Frame, ch: Choice)
    requires Safe(sys.nodes, f) && Allowed(sys.nodes, f, ch) && (f.ArriveShard? || f.DepartShard? || f.Flush? || f.Probe? || f.FlushIfAlive?)
    ensures StopsAgree(sys.nodes, Perform(sys, f, ch).nodes, None)
  {
    hide StopsAgree, SetShard;
    SameStops(sys.nodes, f.n, sys.nodes[f.n].word);
    forall w: ShardWord | w.stopped == sys.nodes[f.n].shards[f.s].word.stopped ensures StopsAgree(sys.nodes, SetShard(sys.nodes, f.n, f.s, w), None) {
      ShardStops(sys.nodes, f.n, f.s, w);
    }
  }

  lemma NodeFrameStops(sys: Sys, f: Frame, ch: Choice)
    requires Safe(sys.nodes, f) && Allowed(sys.nodes, f, ch) && (f.ArriveNode? || f.DepartNode? || f.NotifyZero? || f.Release?)
    ensures StopsAgree(sys.nodes, Perform(sys, f, ch).nodes, None)
  {
    hide StopsAgree, SetNode, NotifyAll;
    forall w: NodeWord ensures StopsAgree(sys.nodes, SetNode(sys.nodes, f.n, w), None) { SameStops(sys.nodes, f.n, w); }
    SameStops(sys.nodes, f.n, sys.nodes[f.n].word);
  }

  lemma LatchFrameStops(sys: Sys, f: Frame, ch: Choice)
    requires Safe(sys.nodes, f) && Allowed(sys.nodes, f, ch) && Latched(sys.nodes, f).Some?
    ensures StopsAgree(sys.nodes, Perform(sys, f, ch).nodes, Latched(sys.nodes, f))
    ensures |Perform(sys, f, ch).push| > 0 && !Perform(sys, f, ch).arrived
  {
    hide StopsAgree, SetShard;
    var h := Latched(sys.nodes, f).value;
    ShardStops(sys.nodes, h.node, h.shard, sys.nodes[h.node].shards[h.shard].word.(stopped := true));
  }

  lemma OtherFrameStops(sys: Sys, f: Frame, ch: Choice)
    requires Safe(sys.nodes, f) && Allowed(sys.nodes, f, ch) && Latched(sys.nodes, f).None? && (f.Stop? || f.Collect?)
    ensures StopsAgree(sys.nodes, Perform(sys, f, ch).nodes, None)
  {
    hide NotifyAll, LiveChildren;
  }

  lemma NewChildStops(sys: Sys, f: Frame, ch: Choice)
    requires Safe(sys.nodes, f) && Allowed(sys.nodes, f, ch) && f.NewChild?
    ensures StopsAgree(sys.nodes, Perform(sys, f, ch).nodes, None)
  {
  }

  lemma RunStopsAgree(sys: Sys, f: Frame, ch: Choice)
    requires Safe(sys.nodes, f) && Allowed(sys.nodes, f, ch)
    ensures StopsAgree(sys.nodes, Perform(sys, f, ch).nodes, Latched(sys.nodes, f))
  {
    hide StopsAgree, Perform, Safe, Allowed;
    if Latched(sys.nodes, f).Some? {
      LatchFrameStops(sys, f, ch);
    } else if f.Stop? || f.Collect? {
      OtherFrameStops(sys, f, ch);
    } else if f.NewChild? {
      NewChildStops(sys, f, ch);
    } else if f.ArriveNode? || f.DepartNode? || f.NotifyZero? || f.Release? {
      NodeFrameStops(sys, f, ch);
    } else {
      ShardFrameStops(sys, f, ch);
    }
  }

  lemma StartLeavesCalls(sys: Sys, action: Action)
    requires Enabled(sys, action) && !action.Run?
    ensures var sys' := Protocol.Apply(sys, action);
            |sys'.threads| == |sys.threads| && forall t :: 0 <= t < |sys.threads| && sys.threads[t] != [] ==> sys'.threads[t] == sys.threads[t]
  {
    hide Unpinned, StepWaiter, SetShard, SetLife, SetHandles, NewNode, Plus, Held, ValidShard;
  }

  lemma CloneStopsAgree(nodes: seq<Node>, n: nat, s: nat)
    requires ValidShard(nodes, n, s)
    ensures StopsAgree(nodes, SetShard(nodes, n, s, Plus(nodes[n].shards[s].word, Local)), None)
  {
  }

  lemma RootStopsAgree(nodes: seq<Node>, shards: nat)
    ensures StopsAgree(nodes, nodes + [NewNode(Root, shards, 1)], None)
  {
  }

  lemma SameStopsAgree(nodes: seq<Node>, n: nat, life: Life, handles: nat)
    requires n < |nodes|
    ensures StopsAgree(nodes, SetLife(nodes, n, life), None) && StopsAgree(nodes, SetHandles(nodes, n, handles), None)
  {
  }

  lemma NoStopsChange(nodes: seq<Node>)
    ensures StopsAgree(nodes, nodes, None)
  {
  }

  lemma StartStopsAgree(sys: Sys, action: Action)
    requires Enabled(sys, action) && !action.Run?
    ensures StopsAgree(sys.nodes, Protocol.Apply(sys, action).nodes, None)
  {
    hide Unpinned, StepWaiter, SetShard, SetLife, SetHandles, NewNode, Plus, StopsAgree;
    match action
    case StartRoot(shards) => RootStopsAgree(sys.nodes, shards);
    case StartCollect(_, n) => SameStopsAgree(sys.nodes, n, Dropping, 0);
    case CloneHandle(n) => SameStopsAgree(sys.nodes, n, Live, sys.nodes[n].handles + 1);
    case DropHandle(_, n) => SameStopsAgree(sys.nodes, n, Live, sys.nodes[n].handles - 1);
    case CloneGuard(h) => CloneStopsAgree(sys.nodes, h.node, h.shard);
    case _ => NoStopsChange(sys.nodes);
  }

  lemma RunThreads(sys: Sys, t: nat, ch: Choice)
    requires Enabled(sys, Run(t, ch))
    ensures var threads' := Advance(sys, t, ch).threads;
            && |threads'| == |sys.threads| && (forall u :: 0 <= u < |sys.threads| && u != t ==> threads'[u] == sys.threads[u])
            && (Latched(sys.nodes, Last(sys.threads[t])).Some? ==> threads'[t] != [])
  {
    hide Perform, Safe, Allowed;
    if Latched(sys.nodes, Last(sys.threads[t])).Some? { LatchFrameStops(sys, Last(sys.threads[t]), ch); }
  }

  // ---- Collected nodes ----------------------------------------------------------------------------------------

  lemma StoppedLasts(nodes: seq<Node>, nodes': seq<Node>, n: nat)
    requires Evolves(nodes, nodes') && n < |nodes| && AllStopped(nodes[n], |nodes[n].shards|)
    ensures n < |nodes'| && AllStopped(nodes'[n], |nodes'[n].shards|)
  {
    hide Listed;
    assert NodeEvolves(nodes[n], nodes'[n]);
  }

  /** A node becomes freed by the last step of its destructor. */
  lemma CollectFrees(sys: Sys, m: nat, pc: DropPc, n: nat)
    requires Safe(sys.nodes, Collect(m, pc))
    requires var nodes' := RunCollect(sys, m, pc).nodes; n < |nodes'| && nodes'[n].life.Freed?
    ensures n < |sys.nodes| && (sys.nodes[n].life.Freed? || (m == n && pc.Free?))
  {
  }

  lemma FreedBy(sys: Sys, f: Frame, ch: Choice, n: nat)
    requires Safe(sys.nodes, f) && Allowed(sys.nodes, f, ch)
    requires var nodes' := Perform(sys, f, ch).nodes; n < |nodes'| && nodes'[n].life.Freed?
    ensures n < |sys.nodes| && (sys.nodes[n].life.Freed? || f == Collect(n, Free))
  {
    hide NotifyAll, LiveChildren, Plus, Minus, Allowed, RunCollect;
    if f.Collect? { CollectFrees(sys, f.n, f.dpc, n); }
  }

  lemma StartFrees(sys: Sys, action: Action, n: nat)
    requires Enabled(sys, action) && !action.Run? && n < |Protocol.Apply(sys, action).nodes| && Protocol.Apply(sys, action).nodes[n].life.Freed?
    ensures n < |sys.nodes| && sys.nodes[n].life.Freed?
  {
    hide Unpinned, StepWaiter;
  }

  lemma FreeShards(nodes: seq<Node>, n: nat)
    requires FrameOk(nodes, Collect(n, Free))
    ensures n < |nodes| && AllStopped(nodes[n], |nodes[n].shards|)
  {
  }

  lemma FreedStep(sys: Sys, action: Action)
    requires Inv(sys) && FreedStopped(sys.nodes) && Enabled(sys, action) && Evolves(sys.nodes, Protocol.Apply(sys, action).nodes)
    ensures FreedStopped(Protocol.Apply(sys, action).nodes)
  {
    hide Inv, Perform, Safe, Allowed, Evolves, AllStopped, Unpinned, StepWaiter, FrameOk, StackOk, Uses;
    hide Registries, Balanced, Latches, Words, CollectsOwed;
    var sys' := Protocol.Apply(sys, action);
    forall n: nat | n < |sys'.nodes| && sys'.nodes[n].life.Freed? ensures AllStopped(sys'.nodes[n], |sys'.nodes[n].shards|) {
      if action.Run? {
        var f := Last(sys.threads[action.t]);
        TopFacts(sys, action.t);
        FreedBy(sys, f, action.ch, n);
        if f == Collect(n, Free) { FreeShards(sys.nodes, n); }
      } else {
        StartFrees(sys, action, n);
      }
      StoppedLasts(sys.nodes, sys'.nodes, n);
    }
  }

  // ---- Every event ------------------------------------------------------------------------------------------

  lemma QuietOk()
    ensures SL.Inv(QUIET)
  {
    SL.InitInv(QUIET);
  }

  lemma BegunOk(shard: SL.Sys)
    requires SL.Inv(shard)
    ensures SL.Inv(Begun(shard)) && Begun(shard).stopped && Begun(shard).stoppers == shard.stoppers + [SL.Drain]
  {
    hide SL.Inv;
    var more := SL.Apply(shard, SL.StartStop);
    SL.InvStep(shard, SL.StartStop);
    SL.InvStep(more, SL.RunStop(|shard.stoppers|, 0));
    assert more.stoppers[|shard.stoppers| := SL.Drain] == shard.stoppers + [SL.Drain];
  }

  lemma ListenShape(shard: SL.Sys, listening: SL.Action)
    requires SL.Enabled(shard, listening) && Of(listening)
    ensures SL.Apply(shard, listening).stopped == shard.stopped && SL.Apply(shard, listening).stoppers == shard.stoppers
  {
  }

  lemma ServeShape(shard: SL.Sys, s: nat, waker: nat)
    requires SL.Enabled(shard, SL.RunStop(s, waker)) && !shard.stoppers[s].Begin?
    ensures var shard' := SL.Apply(shard, SL.RunStop(s, waker));
            && shard'.stopped == shard.stopped && |shard'.stoppers| == |shard.stoppers| && shard'.stoppers[s].Wake?
            && forall u: nat :: u < |shard.stoppers| && u != s ==> shard'.stoppers[u] == shard.stoppers[u]
  {
  }

  /** A shard that the transition does not latch. */
  lemma UnlatchedAgrees(j: Joined, j': Joined, h: Home, latched: Option<Home>)
    requires ShardAgrees(j, h) && StopsAgree(j.sys.nodes, j'.sys.nodes, latched) && latched != Some(h)
    requires Shard(j', h) == Shard(j, h) && (h in j'.shards <==> h in j.shards)
    requires forall s: nat :: AtWork(j, h, s) ==> AtWork(j', h, s)
    ensures ShardAgrees(j', h)
  {
    hide SL.Inv, AtWork;
    QuietOk();
  }

  lemma StepJoined(j: Joined, action: Action)
    requires JoinedOk(j) && CanOccur(j, Step(action)) && StopsAgree(j.sys.nodes, Protocol.Apply(j.sys, action).nodes, None)
    requires !action.Run? || Latched(j.sys.nodes, Last(j.sys.threads[action.t])).None?
    requires forall t: nat :: t in j.busy && t < |j.sys.threads| ==>
               t < |Protocol.Apply(j.sys, action).threads| && Protocol.Apply(j.sys, action).threads[t] == j.sys.threads[t]
    ensures BusyOk(After(j, Step(action))) && forall h :: ShardAgrees(After(j, Step(action)), h)
  {
    hide Inv, ShardAgrees, Enabled, Protocol.Apply, StopsAgree;
    var j' := After(j, Step(action));
    assert j' == j.(sys := Protocol.Apply(j.sys, action));
    forall h ensures ShardAgrees(j', h) {
      assert ShardAgrees(j, h);
      forall s: nat | AtWork(j, h, s) ensures AtWork(j', h, s) {}
      UnlatchedAgrees(j, j', h, None);
    }
  }

  lemma AgreedInv(j: Joined, h: Home)
    requires ShardAgrees(j, h) && ValidShard(j.sys.nodes, h.node, h.shard)
    ensures SL.Inv(Shard(j, h))
  {
  }

  lemma LatchedAgrees(j: Joined, j': Joined, h: Home)
    requires ShardAgrees(j, h) && StopsAgree(j.sys.nodes, j'.sys.nodes, Some(h)) && ValidShard(j.sys.nodes, h.node, h.shard)
    requires SL.Inv(Shard(j', h)) && Shard(j', h).stopped && Shard(j', h).stoppers == Shard(j, h).stoppers + [SL.Drain]
    requires AtWork(j', h, |Shard(j, h).stoppers|) && forall s: nat :: AtWork(j, h, s) ==> AtWork(j', h, s)
    ensures ShardAgrees(j', h)
  {
    hide SL.Inv, AtWork;
  }

  lemma LatchJoined(j: Joined, t: nat, ch: Choice)
    requires JoinedOk(j) && CanOccur(j, Step(Run(t, ch))) && Latched(j.sys.nodes, Last(j.sys.threads[t])).Some?
    ensures BusyOk(After(j, Step(Run(t, ch)))) && forall h :: ShardAgrees(After(j, Step(Run(t, ch))), h)
  {
    hide Inv, ShardAgrees, Perform, Safe, Allowed, StopsAgree, Begun, SL.Inv;
    var f, j' := Last(j.sys.threads[t]), After(j, Step(Run(t, ch)));
    var h0 := Latched(j.sys.nodes, f).value;
    RunStopsAgree(j.sys, f, ch);
    RunThreads(j.sys, t, ch);
    assert ShardAgrees(j, h0);
    AgreedInv(j, h0);
    BegunOk(Shard(j, h0));
    assert Shard(j', h0) == Begun(Shard(j, h0));
    forall h ensures ShardAgrees(j', h) {
      assert ShardAgrees(j, h);
      forall s: nat | AtWork(j, h, s) ensures AtWork(j', h, s) {
        var u :| u in j.busy && j.busy[u] == Serving(h, s);
        assert j'.busy[u] == Serving(h, s);
      }
      if h == h0 {
        assert j'.busy[t] == Serving(h0, |Shard(j, h0).stoppers|);
        LatchedAgrees(j, j', h0);
      } else {
        UnlatchedAgrees(j, j', h, Some(h0));
      }
    }
    forall u | u in j'.busy && u != t ensures u in j.busy {}
  }

  lemma RunStep(j: Joined, t: nat, ch: Choice)
    requires JoinedOk(j) && CanOccur(j, Step(Run(t, ch)))
    ensures BusyOk(After(j, Step(Run(t, ch)))) && forall h :: ShardAgrees(After(j, Step(Run(t, ch))), h)
  {
    hide JoinedOk, ShardAgrees, Perform, Safe, Allowed, StopsAgree, Begun;
    RunStopsAgree(j.sys, Last(j.sys.threads[t]), ch);
    RunThreads(j.sys, t, ch);
    assert Protocol.Apply(j.sys, Run(t, ch)) == Advance(j.sys, t, ch);
    if Latched(j.sys.nodes, Last(j.sys.threads[t])).Some? { LatchJoined(j, t, ch); } else { StepJoined(j, Run(t, ch)); }
  }

  lemma StartStep(j: Joined, action: Action)
    requires JoinedOk(j) && CanOccur(j, Step(action)) && !action.Run?
    ensures BusyOk(After(j, Step(action))) && forall h :: ShardAgrees(After(j, Step(action)), h)
  {
    hide Inv, ShardAgrees, StopsAgree, Enabled, Protocol.Apply;
    StartStopsAgree(j.sys, action);
    StartLeavesCalls(j.sys, action);
    StepJoined(j, action);
  }

  /** An event of one shard. */
  lemma ShardStep(j: Joined, h: Home, shard': SL.Sys)
    requires JoinedOk(j) && ValidShard(j.sys.nodes, h.node, h.shard) && SL.Inv(shard')
    requires var shard := Shard(j, h);
             && shard'.stopped == shard.stopped && |shard'.stoppers| == |shard.stoppers|
             && forall s: nat :: s < |shard.stoppers| ==>
                  !shard'.stoppers[s].Begin? && (shard'.stoppers[s] == shard.stoppers[s] || AtWork(j, h, s))
    ensures JoinedOk(j.(shards := j.shards[h := shard']))
  {
    hide Inv, SL.Inv, FreedStopped;
    var j' := j.(shards := j.shards[h := shard']);
    forall g ensures ShardAgrees(j', g) {
      assert ShardAgrees(j, g);
      forall s: nat ensures AtWork(j', g, s) <==> AtWork(j, g, s) {}
    }
  }

  lemma ListenStep(j: Joined, h: Home, listening: SL.Action)
    requires JoinedOk(j) && CanOccur(j, Attend(h, listening))
    ensures JoinedOk(After(j, Attend(h, listening)))
  {
    hide Inv, SL.Inv, FreedStopped, BusyOk, SL.Enabled, SL.Apply;
    assert ShardAgrees(j, h);
    SL.InvStep(Shard(j, h), listening);
    ListenShape(Shard(j, h), listening);
    ShardStep(j, h, SL.Apply(Shard(j, h), listening));
  }

  lemma ServeStep(j: Joined, t: nat, waker: nat)
    requires JoinedOk(j) && CanOccur(j, Serve(t, waker))
    ensures JoinedOk(After(j, Serve(t, waker)))
  {
    hide Inv, SL.Inv, FreedStopped, SL.Apply;
    var h, s := j.busy[t].h, j.busy[t].s;
    assert ShardAgrees(j, h);
    assert AtWork(j, h, s);
    SL.InvStep(Shard(j, h), SL.RunStop(s, waker));
    ServeShape(Shard(j, h), s, waker);
    ShardStep(j, h, SL.Apply(Shard(j, h), SL.RunStop(s, waker)));
  }

  lemma ServedStep(j: Joined, t: nat)
    requires JoinedOk(j) && CanOccur(j, Served(t))
    ensures JoinedOk(After(j, Served(t)))
  {
    hide Inv, SL.Inv, FreedStopped;
    var j' := After(j, Served(t));
    forall h ensures ShardAgrees(j', h) {
      assert ShardAgrees(j, h);
      forall s: nat | AtWork(j, h, s) && j.busy[t] != Serving(h, s) ensures AtWork(j', h, s) {
        var u :| u in j.busy && j.busy[u] == Serving(h, s);
        assert u in j'.busy;
      }
    }
  }

  lemma EventStep(j: Joined, event: Event)
    requires JoinedOk(j) && CanOccur(j, event)
    ensures JoinedOk(After(j, event))
  {
    hide Inv, Enabled, Protocol.Apply, ShardAgrees, BusyOk, FreedStopped, Evolves, SL.Enabled, SL.Apply;
    match event
    case Step(action) =>
      InvStep(j.sys, action);
      FreedStep(j.sys, action);
      if action.Run? { RunStep(j, action.t, action.ch); } else { StartStep(j, action); }
    case Attend(h, listening) => ListenStep(j, h, listening);
    case Serve(t, waker) => ServeStep(j, t, waker);
    case Served(t) => ServedStep(j, t);
  }

  lemma StartIsOk(j: Joined)
    requires Start(j)
    ensures JoinedOk(j)
  {
    hide Inv;
    InitInv(j.sys);
  }

  lemma {:induction false} HistoryOk(run: seq<Joined>, i: nat)
    requires IsHistory(run) && i < |run|
    ensures JoinedOk(run[i])
  {
    hide JoinedOk, CanOccur, After, Start;
    if i == 0 {
      StartIsOk(run[0]);
    } else {
      HistoryOk(run, i - 1);
      assert Follows(run[i - 1], run[i - 1 + 1]);
      var event :| CanOccur(run[i - 1], event) && run[i] == After(run[i - 1], event);
      EventStep(run[i - 1], event);
    }
  }

  lemma OccursOk(j: Joined)
    requires Occurs(j)
    ensures JoinedOk(j)
  {
    hide Follows, Start, JoinedOk;
    var run :| IsHistory(run) && run[|run| - 1] == j;
    HistoryOk(run, |run| - 1);
  }

  // ---- Each machine by itself -------------------------------------------------------------------------------

  /** An event of another shard leaves this one alone; what an interrupt of the shard does is a step of its own, and
      otherwise the shard stays, or a stop of it begins or goes on. */
  ghost predicate ShardMoves(shard: SL.Sys, shard': SL.Sys, event: Event, h: Home) {
    && (event.Attend? && event.h == h ==> SL.Enabled(shard, event.listening) && shard' == SL.Apply(shard, event.listening))
    && (event.Attend? && event.h != h ==> shard' == shard)
    && (|| shard' == shard || shard' == Begun(shard)
        || exists action :: SL.Enabled(shard, action) && shard' == SL.Apply(shard, action))
  }

  /** Seen from the protocol an event is one of its actions or nothing, and seen from a shard one of its own steps or
      nothing. */
  lemma EventProjects(j: Joined, event: Event, h: Home)
    requires CanOccur(j, event)
    ensures After(j, event).sys == (if event.Step? then Protocol.Apply(j.sys, event.action) else j.sys)
    ensures ShardMoves(Shard(j, h), Shard(After(j, event), h), event, h)
  {
    hide Enabled, Protocol.Apply, SL.Enabled, SL.Apply, Begun, Latched;
    if event.Serve? && j.busy[event.t].h == h {
      assert SL.Enabled(Shard(j, h), SL.RunStop(j.busy[event.t].s, event.waker));
    }
  }

  lemma BegunReachable(shard: SL.Sys)
    requires SL.Reachable(shard)
    ensures SL.Reachable(Begun(shard))
  {
    hide SL.Reachable;
    SL.ReachableNext(shard, SL.StartStop);
    SL.ReachableNext(SL.Apply(shard, SL.StartStop), SL.RunStop(|shard.stoppers|, 0));
  }

  lemma QuietReachable()
    ensures SL.Reachable(QUIET)
  {
    assert SL.IsRun([QUIET]);
  }

  lemma {:induction false} ShardOver(run: seq<Joined>, i: nat, h: Home)
    requires IsHistory(run) && i < |run|
    ensures SL.Reachable(Shard(run[i], h))
  {
    hide SL.Reachable, CanOccur, After, SL.Enabled, SL.Apply, Begun;
    if i == 0 {
      QuietReachable();
    } else {
      ShardOver(run, i - 1, h);
      assert Follows(run[i - 1], run[i - 1 + 1]);
      var event :| CanOccur(run[i - 1], event) && run[i] == After(run[i - 1], event);
      EventProjects(run[i - 1], event, h);
      var shard, shard' := Shard(run[i - 1], h), Shard(run[i], h);
      BegunReachable(shard);
      if action :| SL.Enabled(shard, action) && shard' == SL.Apply(shard, action) { SL.ReachableNext(shard, action); }
    }
  }

  /** Every shard of the joined machine is in a state that its own machine reaches, so that whatever holds of that
      holds of every shard. */
  lemma ShardReachable(j: Joined, h: Home)
    requires Occurs(j)
    ensures SL.Reachable(Shard(j, h))
  {
    hide Follows, Start, SL.Reachable;
    var run :| IsHistory(run) && run[|run| - 1] == j;
    ShardOver(run, |run| - 1, h);
  }

  // ---- What interrupts can rely on ----------------------------------------------------------------------------

  /** The node is collected, or is alive and has a stopped node at or above it. */
  ghost predicate Over(nodes: seq<Node>, n: nat) {
    n < |nodes| && (nodes[n].life.Freed? || (nodes[n].life.Live? && exists a: nat :: a < |nodes| && nodes[a].word.stopped && Within(nodes, a, n)))
  }

  lemma QuiescentLatched(sys: Sys, n: nat, s: nat)
    requires Inv(sys) && Quiescent(sys) && ValidShard(sys.nodes, n, s) && sys.nodes[n].word.stopped
    ensures sys.nodes[n].shards[s].word.stopped
  {
    hide ThreadTokens, Words, Latches, Registries, Stacks, Waiters, Balanced, Lives, Departures;
    hide FlushesOwed, ReleasesOwed, StopsOwed, RegistersOwed, CollectsOwed;
    QuiescentHoldsNothing(sys);
    assert !NeedsLatch(sys.nodes, n, s);
  }

  lemma QuiescentShardStopped(sys: Sys, n: nat, s: nat)
    requires Inv(sys) && FreedStopped(sys.nodes) && Quiescent(sys) && Over(sys.nodes, n) && ValidShard(sys.nodes, n, s)
    ensures sys.nodes[n].shards[s].word.stopped
  {
    hide Inv, Quiescent;
    if sys.nodes[n].life.Live? {
      var a: nat :| a < |sys.nodes| && sys.nodes[a].word.stopped && Within(sys.nodes, a, n);
      StopReachesDescendants(sys, a, n);
      QuiescentLatched(sys, n, s);
    } else {
      assert AllStopped(sys.nodes[n], |sys.nodes[n].shards|);
    }
  }

  /** Eventual wake: with no call in progress, every interrupt on any shard of a collected node, or of a
      live node with a stopped node at or above it, whose latest poll returned Pending has been woken
      since, and its next poll reports the interruption, however its relaxed reads fall. */
  lemma PendingIsWoken(j: Joined, h: Home, l: nat, waker: nat, stale: bool, finished: bool)
    requires Occurs(j) && Quiescent(j.sys) && Over(j.sys.nodes, h.node) && ValidShard(j.sys.nodes, h.node, h.shard)
    requires l < |Shard(j, h).listeners| && Shard(j, h).listeners[l].pc.Idle? && Shard(j, h).listeners[l].answer == SL.Pending
    ensures Shard(j, h).listeners[l].woken
    ensures SL.StepPoll(SL.Apply(Shard(j, h), SL.StartPoll(l, waker)), l, stale, finished).listeners[l].answer == SL.Interrupted
  {
    hide Occurs, Inv, SL.Inv, FreedStopped, Over;
    OccursOk(j);
    assert ShardAgrees(j, h);
    QuiescentShardStopped(j.sys, h.node, h.shard);
    var shard := Shard(j, h);
    forall s: nat | s < |shard.stoppers| ensures shard.stoppers[s] == SL.Wake(multiset{}) { assert !AtWork(j, h, s); }
    SL.PendingCovered(shard, l);
    SL.WokenPollSees(shard, l, waker, stale, finished);
  }

  lemma LatchesKnown(sys: Sys)
    requires Inv(sys)
    ensures Latches(sys.nodes)
  {
  }

  /** No spurious interruption: an interrupt reports one only if its node is stopped, or its destructor
      has started. */
  lemma InterruptedOnlyWhenStopped(j: Joined, h: Home, l: nat)
    requires Occurs(j) && l < |Shard(j, h).listeners| && Shard(j, h).listeners[l].answer == SL.Interrupted
    ensures h.node < |j.sys.nodes| && (j.sys.nodes[h.node].word.stopped || !j.sys.nodes[h.node].life.Live?)
  {
    hide Occurs, Inv, FreedStopped;
    OccursOk(j);
    assert ShardAgrees(j, h);
    assert SL.ListenerOk(Shard(j, h), l);
    LatchesKnown(j.sys);
  }

  /** A thread that is stopping a shard can always go on. */
  lemma ServeGoesOn(j: Joined, t: nat)
    requires Occurs(j) && t in j.busy
    ensures CanOccur(j, Served(t)) || exists waker :: CanOccur(j, Serve(t, waker))
  {
    hide Occurs, Inv, FreedStopped;
    OccursOk(j);
    var stopper := Shard(j, j.busy[t].h).stoppers[j.busy[t].s];
    if stopper.Drain? {
      assert CanOccur(j, Serve(t, 0));
    } else if waker :| waker in stopper.taken {
      assert CanOccur(j, Serve(t, waker));
    } else {
      assert stopper.taken == multiset{};
    }
  }
}
