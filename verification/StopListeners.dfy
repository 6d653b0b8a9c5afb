/** Interrupts waiting for one shard's stop. Any number of listeners are polled, with any wakers,
    and dropped, while any number of threads stop the shard. Each section under the shard's lock is
    one transition. The other reads of the stop bit are relaxed: they may miss a stop, unless
    they are ordered after it by the lock or by the delivery of a wake. */
module StopListeners {
  import opened Memory
  import opened Slabs

  /** A key in the shard's waiters, and the waker that was registered under it. */
  datatype Registration = Registration(key: nat, waker: nat)

  /** Progress through `Interrupt::poll` and `StopListener::poll_stopped`, polled with `waker`. */
  datatype Pc =
    | Idle
    | Check(waker: nat)
    | Reread
    | Lock(waker: nat)
    | Dropped

  /** What the latest poll returned. */
  datatype Answer = Unpolled | Pending | Finished | Interrupted

  /** `woken`: the registered waker has been woken since the latest poll began. `ordered`: such a wake
      was delivered, or a read has seen the stop, so that later reads see it. */
  datatype Listener = Listener(registration: Option<Registration>, pc: Pc, answer: Answer, woken: bool, ordered: bool)

  /** Progress through `Shard::stop`, with the wakers it has taken and not yet woken. */
  datatype Stopper = Begin | Drain | Wake(taken: multiset<nat>)

  /** `drained`: a stop has taken the waiters. */
  datatype Sys = Sys(stopped: bool, drained: bool, waiters: State<nat>, listeners: seq<Listener>, stoppers: seq<Stopper>)

  datatype Action =
    | NewListener
    | StartPoll(l: nat, waker: nat)
    /** `stale`: the read misses the stop, if it may. `finished`: the wrapped future is ready. */
    | RunPoll(l: nat, stale: bool, finished: bool)
    | Drop(l: nat)
    | StartStop
    | RunStop(s: nat, waker: nat)

  /** A relaxed read of the stop bit. */
  function Reads(stopped: bool, ordered: bool, stale: bool): bool {
    stopped && (ordered || !stale)
  }

  function Answered(l: Listener, answer: Answer): Listener {
    l.(pc := Idle, answer := answer, ordered := l.ordered || answer == Interrupted)
  }

  /** After the wrapped future was pending: a listener polled again with its registered waker only
      rereads the stop bit. */
  function PollStopped(l: Listener, waker: nat): Listener {
    l.(pc := if l.registration.Some? && l.registration.value.waker == waker then Reread else Lock(waker))
  }

  /** The section under the lock: without a stop, the old waker is replaced by the new. */
  function Replaced(waiters: State<nat>, registration: Option<Registration>, waker: nat): State<nat> {
    Inserted(if registration.Some? then Removed(waiters, registration.value.key) else waiters, waker)
  }

  function NewKey(waiters: State<nat>, registration: Option<Registration>): nat {
    if registration.Some? then Removed(waiters, registration.value.key).next else waiters.next
  }

  function Reregistered(sys: Sys, l: nat, waker: nat): Sys
    requires l < |sys.listeners|
  {
    var listener := sys.listeners[l];
    var registration := Registration(NewKey(sys.waiters, listener.registration), waker);
    sys.(waiters := Replaced(sys.waiters, listener.registration, waker),
         listeners := sys.listeners[l := Answered(listener, Pending).(registration := Some(registration))])
  }

  predicate Enabled(sys: Sys, action: Action) {
    match action
    case NewListener => true
    case StartPoll(l, _) => l < |sys.listeners| && sys.listeners[l].pc.Idle?
    case RunPoll(l, _, _) => l < |sys.listeners| && !sys.listeners[l].pc.Idle? && !sys.listeners[l].pc.Dropped?
    case Drop(l) => l < |sys.listeners| && sys.listeners[l].pc.Idle?
    case StartStop => true
    case RunStop(s, waker) => s < |sys.stoppers| && (sys.stoppers[s].Wake? ==> waker in sys.stoppers[s].taken)
  }

  function StepPoll(sys: Sys, l: nat, stale: bool, finished: bool): Sys
    requires l < |sys.listeners|
  {
    var listener := sys.listeners[l];
    match listener.pc
    case Check(waker) =>
      sys.(listeners := sys.listeners[l :=
        if Reads(sys.stopped, listener.ordered, stale) then Answered(listener, Interrupted)
        else if finished then Answered(listener, Finished)
        else PollStopped(listener, waker)])
    case Reread =>
      sys.(listeners := sys.listeners[l :=
        Answered(listener, if Reads(sys.stopped, listener.ordered, stale) then Interrupted else Pending)])
    case Lock(waker) =>
      if Reads(sys.stopped, listener.ordered || sys.drained, stale) then
        sys.(listeners := sys.listeners[l := Answered(listener, Interrupted)])
      else
        Reregistered(sys, l, waker)
    case _ => sys
  }

  /** Waking a waker schedules a poll of each listener that registered it. */
  function Woken(listeners: seq<Listener>, waker: nat): (listeners': seq<Listener>)
    ensures |listeners'| == |listeners|
  {
    seq(|listeners|, l requires 0 <= l < |listeners| =>
      if listeners[l].registration.Some? && listeners[l].registration.value.waker == waker
      then listeners[l].(woken := true) else listeners[l])
  }

  /** The values of a map, with multiplicity. */
  ghost function Bag(contents: map<nat, nat>, end: nat): multiset<nat> {
    multiset(Values(contents, end))
  }

  ghost function Apply(sys: Sys, action: Action): Sys
    requires Enabled(sys, action)
  {
    match action
    case NewListener => sys.(listeners := sys.listeners + [Listener(None, Idle, Unpolled, false, false)])
    case StartPoll(l, waker) =>
      var listener := sys.listeners[l];
      sys.(listeners := sys.listeners[l := listener.(pc := Check(waker), woken := false, ordered := listener.ordered || listener.woken)])
    case RunPoll(l, stale, finished) => StepPoll(sys, l, stale, finished)
    case Drop(l) =>
      var listener := sys.listeners[l];
      sys.(waiters := if listener.registration.Some? then Removed(sys.waiters, listener.registration.value.key) else sys.waiters,
           listeners := sys.listeners[l := listener.(registration := None, pc := Dropped)])
    case StartStop => sys.(stoppers := sys.stoppers + [Begin])
    case RunStop(s, waker) =>
      (match sys.stoppers[s]
       case Begin => sys.(stopped := true, stoppers := sys.stoppers[s := Drain])
       case Drain =>
         sys.(drained := true, waiters := Empty(), stoppers := sys.stoppers[s := Wake(Bag(Contents(sys.waiters), |sys.waiters.slots|))])
       case Wake(taken) =>
         sys.(stoppers := sys.stoppers[s := Wake(taken - multiset{waker})], listeners := Woken(sys.listeners, waker)))
  }

  ghost predicate Init(sys: Sys) {
    sys == Sys(false, false, Empty(), [], [])
  }

  ghost predicate Next(sys: Sys, sys': Sys) {
    exists action :: Enabled(sys, action) && sys' == Apply(sys, action)
  }

  ghost predicate IsRun(run: seq<Sys>) {
    |run| > 0 && Init(run[0]) && forall i :: 0 <= i < |run| - 1 ==> Next(run[i], run[i + 1])
  }

  ghost predicate Reachable(sys: Sys) {
    exists run :: IsRun(run) && run[|run| - 1] == sys
  }

  // ---- The invariant --------------------------------------------------------------------------------------

  /** The listener's waker is in the waiters, under its key. */
  ghost predicate Held(sys: Sys, l: nat)
    requires l < |sys.listeners| && sys.listeners[l].registration.Some?
  {
    var r := sys.listeners[l].registration.value;
    r.key in Contents(sys.waiters) && Contents(sys.waiters)[r.key] == r.waker
  }

  /** A stop has taken the listener's waker, and is about to wake it. */
  ghost predicate Taken(sys: Sys, l: nat)
    requires l < |sys.listeners| && sys.listeners[l].registration.Some?
  {
    exists s :: 0 <= s < |sys.stoppers| && sys.stoppers[s].Wake? && sys.listeners[l].registration.value.waker in sys.stoppers[s].taken
  }

  ghost predicate Registered(sys: Sys, l: nat) {
    l < |sys.listeners| && sys.listeners[l].registration.Some?
  }

  ghost predicate ListenerOk(sys: Sys, l: nat)
    requires l < |sys.listeners|
  {
    var listener := sys.listeners[l];
    && (listener.registration.Some? ==> if sys.drained then Taken(sys, l) || listener.woken || listener.ordered else Held(sys, l))
    && (listener.woken ==> sys.drained) && (listener.ordered ==> sys.stopped) && (listener.answer == Interrupted ==> listener.ordered)
    && (listener.pc.Idle? && listener.answer == Pending ==> listener.registration.Some? && !listener.ordered)
    && (listener.pc.Reread? ==> listener.registration.Some?)
    && (listener.pc.Dropped? ==> listener.registration.None?)
  }

  ghost predicate KeysDiffer(sys: Sys) {
    forall l, m :: 0 <= l < |sys.listeners| && 0 <= m < |sys.listeners| && l != m
      && sys.listeners[l].registration.Some? && sys.listeners[m].registration.Some?
      ==> sys.listeners[l].registration.value.key != sys.listeners[m].registration.value.key
  }

  /** Every waker in the waiters is some listener's, under that listener's key. */
  ghost predicate NoStrays(sys: Sys) {
    forall k :: k in Contents(sys.waiters) ==> exists l: nat :: Registered(sys, l) && sys.listeners[l].registration.value.key == k
  }

  ghost predicate Inv(sys: Sys) {
    && Valid(sys.waiters)
    && (sys.drained ==> sys.stopped && Contents(sys.waiters) == map[])
    && (!sys.drained ==> KeysDiffer(sys)) && NoStrays(sys)
    && (forall s :: 0 <= s < |sys.stoppers| ==> (!sys.stoppers[s].Begin? ==> sys.stopped) && (sys.stoppers[s].Wake? ==> sys.drained))
    && (forall l :: 0 <= l < |sys.listeners| ==> ListenerOk(sys, l))
  }

  /** Listeners keep their keys, and no key is added. */
  lemma SameStrays(sys: Sys, sys': Sys)
    requires NoStrays(sys) && sys'.waiters == sys.waiters && |sys'.listeners| >= |sys.listeners|
    requires forall l :: 0 <= l < |sys.listeners| ==> sys'.listeners[l].registration == sys.listeners[l].registration
    ensures NoStrays(sys')
  {
    hide Contents;
    forall k | k in Contents(sys'.waiters) ensures exists l: nat :: Registered(sys', l) && sys'.listeners[l].registration.value.key == k {
      var l: nat :| Registered(sys, l) && sys.listeners[l].registration.value.key == k;
      assert Registered(sys', l);
    }
  }

  /** One listener's key goes, and perhaps it gets another. */
  lemma MovedStrays(sys: Sys, sys': Sys, l: nat)
    requires NoStrays(sys) && l < |sys.listeners| && |sys'.listeners| == |sys.listeners|
    requires forall m :: 0 <= m < |sys.listeners| && m != l ==> sys'.listeners[m] == sys.listeners[m]
    requires forall k :: k in Contents(sys'.waiters) ==>
               (k in Contents(sys.waiters) && !(Registered(sys, l) && sys.listeners[l].registration.value.key == k))
               || (Registered(sys', l) && sys'.listeners[l].registration.value.key == k)
    ensures NoStrays(sys')
  {
    hide Contents;
    forall k | k in Contents(sys'.waiters) ensures exists m: nat :: Registered(sys', m) && sys'.listeners[m].registration.value.key == k {
      if !(Registered(sys', l) && sys'.listeners[l].registration.value.key == k) {
        var m: nat :| Registered(sys, m) && sys.listeners[m].registration.value.key == k;
        assert Registered(sys', m);
      }
    }
  }

  lemma EmptyOk()
    ensures Valid(Empty<nat>()) && Contents(Empty<nat>()) == map[]
  {
    assert Links(Empty<nat>(), []);
  }

  lemma StartPollStep(sys: Sys, l: nat, waker: nat)
    requires Inv(sys) && Enabled(sys, StartPoll(l, waker))
    ensures Inv(Apply(sys, StartPoll(l, waker)))
  {
    hide NoStrays, Contents;
    var sys' := Apply(sys, StartPoll(l, waker));
    SameStrays(sys, sys');
    forall m | 0 <= m < |sys'.listeners| ensures ListenerOk(sys', m) {
      assert ListenerOk(sys, m);
      assert Registered(sys, m) ==> (Taken(sys, m) ==> Taken(sys', m));
    }
  }

  /** A poll that registers nothing. */
  lemma AnswerStep(sys: Sys, l: nat, listener': Listener)
    requires Inv(sys) && l < |sys.listeners| && !sys.listeners[l].pc.Dropped?
    requires var listener := sys.listeners[l];
             && listener'.registration == listener.registration && listener'.woken == listener.woken
             && (listener.ordered ==> listener'.ordered) && (listener'.ordered ==> sys.stopped)
             && (listener'.answer == Interrupted ==> listener'.ordered)
             && (listener'.pc.Idle? && listener'.answer == Pending ==> listener'.registration.Some? && !listener'.ordered)
             && (listener'.pc.Reread? ==> listener'.registration.Some?) && !listener'.pc.Dropped?
    ensures Inv(sys.(listeners := sys.listeners[l := listener']))
  {
    hide NoStrays, Contents;
    var sys' := sys.(listeners := sys.listeners[l := listener']);
    SameStrays(sys, sys');
    forall m | 0 <= m < |sys'.listeners| ensures ListenerOk(sys', m) {
      assert ListenerOk(sys, m);
      assert Registered(sys, m) ==> (Taken(sys, m) ==> Taken(sys', m));
    }
  }

  /** What the waiters hold once the old registration, if any, is gone. */
  function Vacated(waiters: State<nat>, registration: Option<Registration>): map<nat, nat> {
    if registration.Some? then Contents(waiters) - {registration.value.key} else Contents(waiters)
  }

  lemma ReplacedContents(waiters: State<nat>, registration: Option<Registration>, waker: nat)
    requires Valid(waiters)
    ensures var key, waiters' := NewKey(waiters, registration), Replaced(waiters, registration, waker);
            && Valid(waiters') && key !in Vacated(waiters, registration)
            && Contents(waiters') == Vacated(waiters, registration)[key := waker]
  {
    hide Contents, Inserted, Removed, Valid;
    if registration.Some? { RemoveRefines(waiters, registration.value.key); }
    InsertRefines(if registration.Some? then Removed(waiters, registration.value.key) else waiters, waker);
  }

  /** A registration takes a key that no other listener has. */
  lemma RegisterStep(sys: Sys, l: nat, waker: nat)
    requires Inv(sys) && l < |sys.listeners| && sys.listeners[l].pc.Lock? && !sys.drained && !sys.listeners[l].ordered
    ensures Inv(Reregistered(sys, l, waker))
  {
    hide Contents, Replaced, NewKey, Valid, NoStrays;
    var listener := sys.listeners[l];
    ReplacedContents(sys.waiters, listener.registration, waker);
    var sys' := Reregistered(sys, l, waker);
    assert ListenerOk(sys, l);
    forall m: nat | m < |sys.listeners| && m != l && Registered(sys, m)
      ensures sys.listeners[m].registration.value.key in Vacated(sys.waiters, listener.registration)
    {
      assert ListenerOk(sys, m);
    }
    forall m | 0 <= m < |sys'.listeners| ensures ListenerOk(sys', m) {
      assert ListenerOk(sys, m);
    }
    assert KeysDiffer(sys');
    MovedStrays(sys, sys', l);
  }

  lemma StopKnown(sys: Sys)
    requires Inv(sys)
    ensures sys.drained ==> sys.stopped
  {
  }

  lemma RunPollStep(sys: Sys, l: nat, stale: bool, finished: bool)
    requires Inv(sys) && Enabled(sys, RunPoll(l, stale, finished))
    ensures Inv(StepPoll(sys, l, stale, finished))
  {
    var listener := sys.listeners[l];
    assert ListenerOk(sys, l);
    hide Inv;
    match listener.pc
    case Check(waker) =>
      AnswerStep(sys, l, if Reads(sys.stopped, listener.ordered, stale) then Answered(listener, Interrupted)
                         else if finished then Answered(listener, Finished) else PollStopped(listener, waker));
    case Reread => AnswerStep(sys, l, Answered(listener, if Reads(sys.stopped, listener.ordered, stale) then Interrupted else Pending));
    case Lock(waker) =>
      if Reads(sys.stopped, listener.ordered || sys.drained, stale) {
        AnswerStep(sys, l, Answered(listener, Interrupted));
      } else {
        StopKnown(sys);
        RegisterStep(sys, l, waker);
      }
    case _ =>
  }

  /** A dropped listener takes its own waker out, and no other. */
  lemma DropStep(sys: Sys, l: nat)
    requires Inv(sys) && Enabled(sys, Drop(l))
    ensures Inv(Apply(sys, Drop(l)))
    ensures Contents(Apply(sys, Drop(l)).waiters) == Vacated(sys.waiters, sys.listeners[l].registration)
    ensures var sys' := Apply(sys, Drop(l));
            forall m: nat :: Registered(sys, m) && m != l && Held(sys, m) ==> Registered(sys', m) && Held(sys', m)
  {
    hide Contents, Removed, Valid, NoStrays;
    var listener, sys' := sys.listeners[l], Apply(sys, Drop(l));
    assert ListenerOk(sys, l);
    if listener.registration.Some? { RemoveRefines(sys.waiters, listener.registration.value.key); }
    MovedStrays(sys, sys', l);
    forall m | 0 <= m < |sys'.listeners| ensures ListenerOk(sys', m) {
      assert ListenerOk(sys, m);
      assert m != l && Registered(sys, m) ==> (Taken(sys, m) ==> Taken(sys', m));
    }
  }

  lemma {:induction false} HeldIsValue(contents: map<nat, nat>, end: nat, key: nat)
    requires key in contents && key < end
    ensures contents[key] in Bag(contents, end)
  {
    if key < end - 1 { HeldIsValue(contents, end - 1, key); }
  }

  /** The drain takes every registered waker. */
  lemma DrainStep(sys: Sys, s: nat, waker: nat)
    requires Inv(sys) && Enabled(sys, RunStop(s, waker)) && sys.stoppers[s].Drain?
    ensures Inv(Apply(sys, RunStop(s, waker)))
  {
    var sys' := Apply(sys, RunStop(s, waker));
    EmptyOk();
    forall l | 0 <= l < |sys'.listeners| ensures ListenerOk(sys', l) {
      assert ListenerOk(sys, l);
      if Registered(sys, l) {
        if sys.drained {
          if Taken(sys, l) {
            var u :| 0 <= u < |sys.stoppers| && sys.stoppers[u].Wake? && sys.listeners[l].registration.value.waker in sys.stoppers[u].taken;
            assert sys'.stoppers[u] == sys.stoppers[u];
          }
        } else {
          var r := sys.listeners[l].registration.value;
          HeldIsValue(Contents(sys.waiters), |sys.waiters.slots|, r.key);
          assert sys'.stoppers[s].Wake? && r.waker in sys'.stoppers[s].taken;
        }
      }
    }
  }

  lemma WakeStep(sys: Sys, s: nat, waker: nat)
    requires Inv(sys) && Enabled(sys, RunStop(s, waker)) && sys.stoppers[s].Wake?
    ensures Inv(Apply(sys, RunStop(s, waker)))
  {
    var sys' := Apply(sys, RunStop(s, waker));
    forall l | 0 <= l < |sys'.listeners| ensures ListenerOk(sys', l) {
      assert ListenerOk(sys, l);
      if Registered(sys, l) && Taken(sys, l) {
        var w := sys.listeners[l].registration.value.waker;
        var u :| 0 <= u < |sys.stoppers| && sys.stoppers[u].Wake? && w in sys.stoppers[u].taken;
        if w != waker {
          assert sys'.stoppers[u].Wake? && w in sys'.stoppers[u].taken;
          assert Taken(sys', l);
        }
      }
    }
  }

  lemma OtherStep(sys: Sys, action: Action)
    requires Inv(sys) && Enabled(sys, action)
    requires action.NewListener? || action.StartStop? || (action.RunStop? && sys.stoppers[action.s].Begin?)
    ensures Inv(Apply(sys, action))
  {
    hide NoStrays, Contents;
    var sys' := Apply(sys, action);
    SameStrays(sys, sys');
    forall l | 0 <= l < |sys'.listeners| ensures ListenerOk(sys', l) {
      if l < |sys.listeners| {
        assert ListenerOk(sys, l);
        if Registered(sys, l) && Taken(sys, l) {
          var u :| 0 <= u < |sys.stoppers| && sys.stoppers[u].Wake? && sys.listeners[l].registration.value.waker in sys.stoppers[u].taken;
          assert sys'.stoppers[u] == sys.stoppers[u];
        }
      }
    }
  }

  lemma InvStep(sys: Sys, action: Action)
    requires Inv(sys) && Enabled(sys, action)
    ensures Inv(Apply(sys, action))
  {
    hide Inv;
    match action
    case StartPoll(l, waker) => StartPollStep(sys, l, waker);
    case RunPoll(l, stale, finished) => RunPollStep(sys, l, stale, finished);
    case Drop(l) => DropStep(sys, l);
    case RunStop(s, waker) =>
      if sys.stoppers[s].Drain? {
        DrainStep(sys, s, waker);
      } else if sys.stoppers[s].Wake? {
        WakeStep(sys, s, waker);
      } else {
        OtherStep(sys, action);
      }
    case _ => OtherStep(sys, action);
  }

  lemma InitInv(sys: Sys)
    requires Init(sys)
    ensures Inv(sys)
  {
    EmptyOk();
  }

  lemma {:induction false} RunInv(run: seq<Sys>, i: nat)
    requires IsRun(run) && i < |run|
    ensures Inv(run[i])
  {
    hide Inv, Enabled, Apply;
    if i == 0 {
      InitInv(run[0]);
    } else {
      RunInv(run, i - 1);
      assert Next(run[i - 1], run[i - 1 + 1]);
      var action :| Enabled(run[i - 1], action) && run[i] == Apply(run[i - 1], action);
      InvStep(run[i - 1], action);
    }
  }

  lemma ReachableInv(sys: Sys)
    requires Reachable(sys)
    ensures Inv(sys)
  {
    hide Inv, Next;
    var run :| IsRun(run) && run[|run| - 1] == sys;
    RunInv(run, |run| - 1);
  }

  lemma ReachableNext(sys: Sys, action: Action)
    requires Reachable(sys) && Enabled(sys, action)
    ensures Reachable(Apply(sys, action))
  {
    hide Init, Enabled, Apply;
    var run :| IsRun(run) && run[|run| - 1] == sys;
    var longer := run + [Apply(sys, action)];
    assert Next(sys, Apply(sys, action));
    forall i | 0 <= i < |longer| - 1 ensures Next(longer[i], longer[i + 1]) {
      if i < |run| - 1 { assert Next(run[i], run[i + 1]); }
    }
    assert IsRun(longer);
  }

  // ---- What listeners can rely on -------------------------------------------------------------------------

  /** No stop of the shard is in progress, and one has run. */
  ghost predicate StopDone(sys: Sys) {
    sys.stoppers != [] && forall s :: 0 <= s < |sys.stoppers| ==> sys.stoppers[s] == Wake(multiset{})
  }

  lemma PendingCovered(sys: Sys, l: nat)
    requires Inv(sys) && l < |sys.listeners| && sys.listeners[l].pc.Idle? && sys.listeners[l].answer == Pending
    ensures sys.listeners[l].registration.Some?
    ensures if sys.drained then Taken(sys, l) || sys.listeners[l].woken else Held(sys, l)
    ensures StopDone(sys) ==> sys.listeners[l].woken
  {
    assert ListenerOk(sys, l);
    assert StopDone(sys) ==> sys.stoppers[0].Wake?;
  }

  /** No lost stop wakeup: a listener whose latest poll returned Pending has its waker in the waiters
      under its own key, or a stop has taken it and is about to wake it, or it has been woken. */
  lemma PendingIsCovered(sys: Sys, l: nat)
    requires Reachable(sys) && l < |sys.listeners| && sys.listeners[l].pc.Idle? && sys.listeners[l].answer == Pending
    ensures sys.listeners[l].registration.Some?
    ensures if sys.drained then Taken(sys, l) || sys.listeners[l].woken else Held(sys, l)
    ensures StopDone(sys) ==> sys.listeners[l].woken
  {
    hide Reachable, Inv, Taken, Held, StopDone;
    ReachableInv(sys);
    PendingCovered(sys, l);
  }

  lemma WokenPollSees(sys: Sys, l: nat, waker: nat, stale: bool, finished: bool)
    requires Inv(sys) && Enabled(sys, StartPoll(l, waker)) && sys.listeners[l].woken
    ensures var sys' := Apply(sys, StartPoll(l, waker)); StepPoll(sys', l, stale, finished).listeners[l].answer == Interrupted
  {
    assert ListenerOk(sys, l);
  }

  /** A poll that begins after the wake sees the stop, however its relaxed reads fall. */
  lemma WokenPollEnds(sys: Sys, l: nat, waker: nat, stale: bool, finished: bool)
    requires Reachable(sys) && Enabled(sys, StartPoll(l, waker)) && sys.listeners[l].woken
    ensures var sys' := Apply(sys, StartPoll(l, waker)); StepPoll(sys', l, stale, finished).listeners[l].answer == Interrupted
  {
    hide Reachable, Inv;
    ReachableInv(sys);
    WokenPollSees(sys, l, waker, stale, finished);
  }

  /** Keys never alias: before the drain, each registered listener's key holds its own waker, and keys
      differ; after it, the waiters stay empty, so that a stale key removes nothing. */
  lemma KeysNeverAlias(sys: Sys, l: nat)
    requires Reachable(sys) && Registered(sys, l)
    ensures !sys.drained ==> Held(sys, l)
    ensures !sys.drained ==> forall m: nat :: Registered(sys, m) && m != l ==>
              sys.listeners[m].registration.value.key != sys.listeners[l].registration.value.key
    ensures sys.drained ==> Contents(sys.waiters) == map[] && Removed(sys.waiters, sys.listeners[l].registration.value.key) == sys.waiters
  {
    hide Reachable;
    ReachableInv(sys);
    assert ListenerOk(sys, l);
    if sys.drained { RemoveRefines(sys.waiters, sys.listeners[l].registration.value.key); }
  }

  /** No waker is left behind: before the drain the waiters hold one waker for each registered listener, under its key,
      and no others; after it, none. */
  lemma WakersAreRegistered(sys: Sys, k: nat)
    requires Reachable(sys)
    ensures !sys.drained ==> (k in Contents(sys.waiters) <==> exists l: nat :: Registered(sys, l) && sys.listeners[l].registration.value.key == k)
    ensures sys.drained ==> k !in Contents(sys.waiters)
  {
    hide Reachable, Contents;
    ReachableInv(sys);
    if l: nat :| Registered(sys, l) && sys.listeners[l].registration.value.key == k { assert ListenerOk(sys, l); }
  }

  // ---- The classes, between two transitions of other threads ----------------------------------------------

  class Shard {
    var stopped: bool
    const waiters: Slab<nat>

    constructor ()
      ensures !stopped && fresh(waiters) && waiters.Abstract() == Empty()
    {
      stopped := false;
      waiters := new Slab();
    }

    /** Latches the shard, and returns the wakers to wake: each registered waker, once for each key. */
    method Stop() returns (taken: seq<nat>)
      modifies this, waiters
      ensures stopped && waiters.Abstract() == Empty()
      ensures multiset(taken) == Bag(old(Contents(waiters.Abstract())), |old(waiters.slots)|)
    {
      stopped := true;
      taken := waiters.Drain();
    }
  }

  class StopListener {
    const shard: Shard
    var registration: Option<Registration>

    constructor (shard: Shard)
      ensures this.shard == shard && registration == None
    {
      this.shard := shard;
      registration := None;
    }

    method PollStopped(waker: nat) returns (ready: bool)
      requires Valid(shard.waiters.Abstract())
      modifies this, shard.waiters
      ensures ready == shard.stopped && Valid(shard.waiters.Abstract())
      ensures ready || (old(registration).Some? && old(registration).value.waker == waker)
          ==> registration == old(registration) && shard.waiters.Abstract() == old(shard.waiters.Abstract())
      ensures !ready && !(old(registration).Some? && old(registration).value.waker == waker)
          ==> registration == Some(Registration(NewKey(old(shard.waiters.Abstract()), old(registration)), waker))
              && shard.waiters.Abstract() == Replaced(old(shard.waiters.Abstract()), old(registration), waker)
    {
      hide Contents;
      if registration.Some? && registration.value.waker == waker {
        return shard.stopped;
      }
      if shard.stopped {
        return true;
      }
      if registration.Some? {
        var _ := shard.waiters.Remove(registration.value.key);
      }
      var key := shard.waiters.Insert(waker);
      registration := Some(Registration(key, waker));
      ready := false;
    }

    method Drop() returns (removed: Option<nat>)
      requires Valid(shard.waiters.Abstract())
      modifies this, shard.waiters
      ensures registration == None && Valid(shard.waiters.Abstract())
      ensures shard.waiters.Abstract() == if old(registration).Some? then Removed(old(shard.waiters.Abstract()), old(registration).value.key)
                                          else old(shard.waiters.Abstract())
      ensures removed.Some? ==> old(registration).Some? && old(registration).value.key in old(Contents(shard.waiters.Abstract()))
    {
      removed := None;
      if registration.Some? {
        removed := shard.waiters.Remove(registration.value.key);
        registration := None;
      }
    }
  }
}
