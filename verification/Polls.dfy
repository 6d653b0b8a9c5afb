/** What a poll of an interrupt comes to, from its start to its answer, whatever other interrupts of the shard,
    and its stops, do meanwhile. */
module Polls {
  import opened StopListeners

  /** The run starts in a reachable state, and each action leads from one of its states to the next. */
  ghost predicate Performs(run: seq<Sys>, acts: seq<Action>) {
    && |run| == |acts| + 1 && Reachable(run[0])
    && forall i :: 0 <= i < |acts| ==> Enabled(run[i], acts[i]) && run[i + 1] == Apply(run[i], acts[i])
  }

  /** The action is one of the listener itself. */
  predicate Own(action: Action, l: nat) {
    (action.StartPoll? || action.RunPoll? || action.Drop?) && action.l == l
  }

  /** Other actions leave a listener as it is, but for a wake. */
  lemma OthersLeave(sys: Sys, action: Action, l: nat)
    requires Enabled(sys, action) && l < |sys.listeners| && !Own(action, l)
    ensures l < |Apply(sys, action).listeners|
    ensures var a, b := sys.listeners[l], Apply(sys, action).listeners[l]; b == a || b == a.(woken := true)
  {
    hide Slabs.Inserted, Slabs.Removed, Bag;
  }

  /** A new listener is unregistered and has not been polled. */
  lemma ListenerMade(sys: Sys)
    ensures var listeners', l := Apply(sys, NewListener).listeners, |sys.listeners|;
            && |listeners'| == l + 1 && listeners'[..l] == sys.listeners
            && listeners'[l].pc.Idle? && listeners'[l].registration.None? && listeners'[l].answer.Unpolled?
  {
  }

  lemma StopLasts(sys: Sys, action: Action)
    requires Enabled(sys, action) && sys.stopped
    ensures Apply(sys, action).stopped
  {
    hide Slabs.Inserted, Slabs.Removed, Bag, Woken;
  }

  lemma {:induction false} StopLastsOver(run: seq<Sys>, acts: seq<Action>, i: nat)
    requires Performs(run, acts) && i <= |acts| && run[i].stopped
    ensures run[|acts|].stopped
    decreases |acts| - i
  {
    hide Enabled, Apply, Reachable;
    if i < |acts| {
      assert run[i + 1] == Apply(run[i], acts[i]);
      StopLasts(run[i], acts[i]);
      StopLastsOver(run, acts, i + 1);
    }
  }

  // ---- One step -----------------------------------------------------------------------------------------------

  /** The wrapped future was pending: the poll is about to reread the stop bit, with the waker registered, or to
      take the lock to register it. */
  predicate Settling(listener: Listener, waker: nat) {
    || listener.pc == Lock(waker)
    || (listener.pc.Reread? && listener.registration.Some? && listener.registration.value.waker == waker)
  }

  /** The wrapped future is polled unless the stop is seen. Once it is ready, the poll is over and has its output,
      and nothing else has changed. */
  lemma CheckStep(sys: Sys, l: nat, waker: nat, stale: bool, finished: bool)
    requires l < |sys.listeners| && sys.listeners[l].pc == Check(waker)
    ensures |StepPoll(sys, l, stale, finished).listeners| == |sys.listeners|
    ensures var sys', a, b := StepPoll(sys, l, stale, finished), sys.listeners[l], StepPoll(sys, l, stale, finished).listeners[l];
            && sys'.waiters == sys.waiters && sys'.stopped == sys.stopped && b.registration == a.registration
            && (b.pc.Idle? ==> if b.answer == Interrupted then sys.stopped else b.answer == Finished && finished)
            && (!b.pc.Idle? ==> !finished && b.answer == a.answer && Settling(b, waker))
            && (!sys.stopped && finished ==> b.pc.Idle? && b.answer == Finished)
  {
  }

  /** The listener answered that the stop was seen, or Pending with the poll's waker registered. */
  predicate Settled(sys: Sys, listener: Listener, waker: nat) {
    && listener.pc.Idle?
    && if listener.answer == Interrupted then sys.stopped
       else listener.answer == Pending && listener.registration.Some? && listener.registration.value.waker == waker
  }

  lemma SettleStep(sys: Sys, l: nat, waker: nat, stale: bool, finished: bool)
    requires l < |sys.listeners| && Settling(sys.listeners[l], waker)
    ensures var sys' := StepPoll(sys, l, stale, finished); |sys'.listeners| == |sys.listeners| && Settled(sys, sys'.listeners[l], waker)
  {
    hide Slabs.Inserted, Slabs.Removed;
  }

  /** An interrupt yields its future's output only from a poll at which the future was ready. */
  lemma FinishedWasReady(sys: Sys, action: Action, l: nat)
    requires Enabled(sys, action) && l < |sys.listeners| && l < |Apply(sys, action).listeners|
    requires Apply(sys, action).listeners[l].answer == Finished && sys.listeners[l].answer != Finished
    ensures action.RunPoll? && action.l == l && action.finished && sys.listeners[l].pc.Check?
    ensures Apply(sys, action).waiters == sys.waiters
  {
    hide Slabs.Inserted, Slabs.Removed, Bag;
    if !Own(action, l) { OthersLeave(sys, action, l); }
  }

  // ---- A whole poll -------------------------------------------------------------------------------------------

  /** The run goes from just before a poll of the listener begins to its answer. */
  ghost predicate WholePoll(run: seq<Sys>, acts: seq<Action>, l: nat, waker: nat) {
    && Performs(run, acts) && |acts| > 0 && acts[0] == StartPoll(l, waker)
    && (forall i :: 0 < i < |acts| ==> l < |run[i].listeners| && !run[i].listeners[l].pc.Idle?)
    && l < |run[|acts|].listeners| && run[|acts|].listeners[l].pc.Idle?
  }

  lemma OtherStep(run: seq<Sys>, acts: seq<Action>, l: nat, i: nat)
    requires Performs(run, acts) && i < |acts| && l < |run[i].listeners| && !Own(acts[i], l)
    ensures l < |run[i + 1].listeners|
    ensures var a, b := run[i].listeners[l], run[i + 1].listeners[l]; b == a || b == a.(woken := true)
  {
    hide Enabled, Apply, Reachable, Own;
    assert run[i + 1] == Apply(run[i], acts[i]);
    OthersLeave(run[i], acts[i], l);
  }

  lemma PollingOwn(sys: Sys, action: Action, l: nat)
    requires Enabled(sys, action) && l < |sys.listeners| && !sys.listeners[l].pc.Idle? && Own(action, l)
    ensures action.RunPoll? && action.l == l && Apply(sys, action) == StepPoll(sys, l, action.stale, action.finished)
  {
  }

  lemma {:induction false} SettlingEnds(run: seq<Sys>, acts: seq<Action>, l: nat, waker: nat, i: nat)
    requires WholePoll(run, acts, l, waker) && 0 < i < |acts| && Settling(run[i].listeners[l], waker)
    ensures Settled(run[|acts|], run[|acts|].listeners[l], waker)
    decreases |acts| - i
  {
    hide Enabled, Apply, Reachable, StepPoll, Own;
    assert Enabled(run[i], acts[i]) && run[i + 1] == Apply(run[i], acts[i]);
    if Own(acts[i], l) {
      PollingOwn(run[i], acts[i], l);
      SettleStep(run[i], l, waker, acts[i].stale, acts[i].finished);
      if run[i].stopped { StopLastsOver(run, acts, i); }
    } else {
      OtherStep(run, acts, l, i);
      SettlingEnds(run, acts, l, waker, i + 1);
    }
  }

  /** What the poll answers, by what its first step, the `k`th of the run, found. */
  ghost predicate Answers(run: seq<Sys>, acts: seq<Action>, l: nat, waker: nat, k: nat)
    requires |run| == |acts| + 1
  {
    && k < |acts| && acts[k].RunPoll? && acts[k].l == l && l < |run[k].listeners| && l < |run[|acts|].listeners|
    && var b := run[|acts|].listeners[l];
       match b.answer
       case Unpolled => false
       case Finished =>
         && acts[k].finished && k == |acts| - 1
         && b.registration == run[k].listeners[l].registration && run[k + 1].waiters == run[k].waiters
       case Interrupted => run[|acts|].stopped
       case Pending => !acts[k].finished && b.registration.Some? && b.registration.value.waker == waker
  }

  lemma {:induction false} CheckEnds(run: seq<Sys>, acts: seq<Action>, l: nat, waker: nat, i: nat) returns (k: nat)
    requires WholePoll(run, acts, l, waker) && 0 < i < |acts| && run[i].listeners[l].pc == Check(waker)
    ensures Answers(run, acts, l, waker, k) && i <= k && forall m :: i <= m < k ==> !Own(acts[m], l)
    ensures !run[|acts|].stopped && acts[k].finished ==> run[|acts|].listeners[l].answer == Finished
    decreases |acts| - i
  {
    hide Enabled, Apply, Reachable, StepPoll, Own, Settling;
    assert Enabled(run[i], acts[i]) && run[i + 1] == Apply(run[i], acts[i]);
    if Own(acts[i], l) {
      PollingOwn(run[i], acts[i], l);
      CheckStep(run[i], l, waker, acts[i].stale, acts[i].finished);
      k := i;
      if run[i].stopped { StopLastsOver(run, acts, i); }
      if i + 1 < |acts| { SettlingEnds(run, acts, l, waker, i + 1); }
    } else {
      OtherStep(run, acts, l, i);
      k := CheckEnds(run, acts, l, waker, i + 1);
    }
  }

  lemma PollStarts(sys: Sys, l: nat, waker: nat)
    requires Enabled(sys, StartPoll(l, waker))
    ensures l < |Apply(sys, StartPoll(l, waker)).listeners| && Apply(sys, StartPoll(l, waker)).listeners[l].pc == Check(waker)
  {
  }

  /** `Interrupt::poll`: on a shard that is not stopped at the end, the poll yields the future's output if the future was
      ready, and otherwise is Pending, with the task's waker registered. It is interrupted only on a
      stopped shard. A poll that yields an output touches no registration. */
  lemma PollAnswers(run: seq<Sys>, acts: seq<Action>, l: nat, waker: nat) returns (k: nat)
    requires WholePoll(run, acts, l, waker)
    ensures 0 < k && Answers(run, acts, l, waker, k) && forall m :: 0 < m < k ==> !Own(acts[m], l)
    ensures !run[|acts|].stopped ==> run[|acts|].listeners[l].answer == if acts[k].finished then Finished else Pending
  {
    hide Enabled, Apply, Reachable, Own;
    assert Enabled(run[0], acts[0]) && run[1] == Apply(run[0], acts[0]);
    PollStarts(run[0], l, waker);
    k := CheckEnds(run, acts, l, waker, 1);
  }

  /** How many steps a poll can still take. */
  function StepsLeft(pc: Pc): nat {
    match pc
    case Check(_) => 2
    case Reread => 1
    case Lock(_) => 1
    case _ => 0
  }

  /** A poll can always take its next step, which brings it closer to its answer, so that it takes two steps at most. */
  lemma PollShrinks(sys: Sys, l: nat, stale: bool, finished: bool)
    requires l < |sys.listeners| && !sys.listeners[l].pc.Idle? && !sys.listeners[l].pc.Dropped?
    ensures Enabled(sys, RunPoll(l, stale, finished))
    ensures StepsLeft(StepPoll(sys, l, stale, finished).listeners[l].pc) < StepsLeft(sys.listeners[l].pc) <= 2
    ensures StepsLeft(StepPoll(sys, l, stale, finished).listeners[l].pc) == 0 ==> StepPoll(sys, l, stale, finished).listeners[l].pc.Idle?
  {
    hide Slabs.Inserted, Slabs.Removed;
  }
}
