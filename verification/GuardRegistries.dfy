/** `GuardRegistry`: the provenance records of one shard's guards, held weakly and swept now and then. */
module GuardRegistries {

  const MIN_SWEEP_THRESHOLD := 16

  function Max(a: nat, b: nat): nat {
    if a >= b then a else b
  }

  /** The records whose guards still exist, in order. `live` are those that an upgrade reaches. */
  function Live(guards: seq<nat>, live: set<nat>): seq<nat> {
    if guards == [] then []
    else
      var front, last := Live(guards[..|guards| - 1], live), guards[|guards| - 1];
      if last in live then front + [last] else front
  }

  /** `guards`, and `sweep_threshold`. */
  datatype State = State(guards: seq<nat>, threshold: nat)

  function Swept(s: State, live: set<nat>): State {
    State(Live(s.guards, live), 2 * |Live(s.guards, live)|)
  }

  predicate SweepDue(s: State) {
    |s.guards| >= Max(s.threshold, MIN_SWEEP_THRESHOLD)
  }

  function Registered(s: State, guard: nat, live: set<nat>): State {
    var room := if SweepDue(s) then Swept(s, live) else s;
    room.(guards := room.guards + [guard])
  }

  lemma {:induction false} LiveAppend(guards: seq<nat>, guard: nat, live: set<nat>)
    ensures Live(guards + [guard], live) == Live(guards, live) + (if guard in live then [guard] else [])
  {
    assert (guards + [guard])[..|guards|] == guards;
  }

  /** Sweeping for a larger set of live records first makes no difference. */
  lemma {:induction false} LiveTwice(guards: seq<nat>, more: set<nat>, live: set<nat>)
    requires live <= more
    ensures Live(Live(guards, more), live) == Live(guards, live) && |Live(guards, live)| <= |guards|
  {
    if guards != [] {
      var front, last := guards[..|guards| - 1], guards[|guards| - 1];
      LiveTwice(front, more, live);
      LiveAppend(Live(front, more), last, live);
    }
  }

  /** The length that sweeping allows. */
  predicate Within(s: State) {
    |s.guards| <= Max(s.threshold, MIN_SWEEP_THRESHOLD)
  }

  /** Registering keeps every live record, adds the new one, and keeps the length in its limit. */
  lemma RegisterKeepsLive(s: State, guard: nat, live: set<nat>)
    ensures var s' := Registered(s, guard, live);
            && Live(s'.guards, live) == Live(s.guards, live) + (if guard in live then [guard] else [])
            && (Within(s) ==> Within(s')) && |s'.guards| <= |s.guards| + 1
  {
    LiveTwice(s.guards, live, live);
    LiveAppend(if SweepDue(s) then Live(s.guards, live) else s.guards, guard, live);
  }

  // ---- The class ------------------------------------------------------------------------------------------

  class GuardRegistry {
    var guards: seq<nat>
    var sweepThreshold: nat

    function Abstract(): State
      reads this
    {
      State(guards, sweepThreshold)
    }

    constructor ()
      ensures Abstract() == State([], 0)
    {
      guards, sweepThreshold := [], 0;
    }

    /** Every live record is kept and the new one is added; a registry that is no longer than its
        limit before is so after. */
    method Register(guard: nat, live: set<nat>)
      modifies this
      ensures Abstract() == Registered(old(Abstract()), guard, live)
      ensures Live(guards, live) == Live(old(guards), live) + (if guard in live then [guard] else [])
      ensures Within(old(Abstract())) ==> Within(Abstract())
      ensures |guards| <= |old(guards)| + 1
    {
      RegisterKeepsLive(Abstract(), guard, live);
      var limit := if sweepThreshold >= MIN_SWEEP_THRESHOLD then sweepThreshold else MIN_SWEEP_THRESHOLD;
      if |guards| >= limit {
        Sweep(live);
      }
      guards := guards + [guard];
    }

    method Sweep(live: set<nat>)
      modifies this
      ensures Abstract() == Swept(old(Abstract()), live)
    {
      guards := LiveRecords(live);
      sweepThreshold := |guards| * 2;
    }

    /** `Shard::guard_infos`: a report sweeps, and sees the live records. */
    method Report(live: set<nat>) returns (records: seq<nat>)
      modifies this
      ensures Abstract() == Swept(old(Abstract()), live) && records == Live(old(guards), live)
    {
      LiveTwice(guards, live, live);
      Sweep(live);
      records := LiveRecords(live);
    }

    method LiveRecords(live: set<nat>) returns (records: seq<nat>)
      ensures records == Live(guards, live)
    {
      records := [];
      for i := 0 to |guards|
        invariant records == Live(guards[..i], live)
      {
        assert guards[..i + 1][..i] == guards[..i];
        if guards[i] in live {
          records := records + [guards[i]];
        }
      }
      assert guards[..|guards|] == guards;
    }
  }

  // ---- Every history --------------------------------------------------------------------------------------

  /** What happens to a registry: a record is registered, a guard drops its record, or a report reads
      the registry, which sweeps it. */
  datatype Event = Register(guard: nat) | Drop(guard: nat) | Read

  /** A registry with its past: the live records, all records ever registered, the live count at the
      last sweep, and the number of entries that sweeps of `register` have scanned. */
  datatype History = History(s: State, live: set<nat>, registered: seq<nat>, swept: nat, scanned: nat)

  function Step(h: History, event: Event): History {
    match event
    case Register(guard) =>
      var live := h.live + {guard};
      h.(s := Registered(h.s, guard, live), live := live, registered := h.registered + [guard],
         swept := if SweepDue(h.s) then |Live(h.s.guards, live)| else h.swept,
         scanned := h.scanned + if SweepDue(h.s) then |h.s.guards| else 0)
    case Drop(guard) => h.(live := h.live - {guard})
    case Read => h.(s := Swept(h.s, h.live), swept := |Live(h.s.guards, h.live)|)
  }

  function After(events: seq<Event>): History {
    if events == [] then History(State([], 0), {}, [], 0, 0)
    else Step(After(events[..|events| - 1]), events[|events| - 1])
  }

  /** Each registration is of a record of its own. */
  ghost predicate Fresh(events: seq<Event>) {
    forall i, j :: 0 <= i < j < |events| && events[i].Register? && events[j].Register? ==> events[i].guard != events[j].guard
  }

  /** Records that are equally live in two sets are kept alike. */
  lemma {:induction false} LiveSame(guards: seq<nat>, live: set<nat>, live': set<nat>)
    requires forall g :: g in guards ==> (g in live <==> g in live')
    ensures Live(guards, live) == Live(guards, live')
  {
    if guards != [] { LiveSame(guards[..|guards| - 1], live, live'); }
  }

  lemma {:induction false} LiveMembers(guards: seq<nat>, live: set<nat>)
    ensures forall g :: g in Live(guards, live) <==> g in guards && g in live
  {
    if guards != [] {
      LiveMembers(guards[..|guards| - 1], live);
      assert guards == guards[..|guards| - 1] + [guards[|guards| - 1]];
    }
  }

  ghost predicate Known(events: seq<Event>, g: nat) {
    exists i :: 0 <= i < |events| && events[i] == Register(g)
  }

  /** Only registered records are kept. */
  lemma {:induction false} KeepsRegistered(events: seq<Event>)
    ensures forall g :: g in After(events).s.guards || g in After(events).registered ==> Known(events, g)
  {
    if events != [] {
      var before, event := events[..|events| - 1], events[|events| - 1];
      KeepsRegistered(before);
      var h, h' := After(before), After(events);
      LiveMembers(h.s.guards, h.live);
      if event.Register? { LiveMembers(h.s.guards, h.live + {event.guard}); }
      forall g | g in h'.s.guards || g in h'.registered ensures Known(events, g) {
        if !(event == Register(g)) {
          assert Known(before, g);
          var i :| 0 <= i < |before| && before[i] == Register(g);
          assert events[i] == Register(g);
        } else {
          assert events[|events| - 1] == Register(g);
        }
      }
    }
  }

  /** No live record is ever dropped: a report sees exactly the live records among all those ever
      registered, in order, however many sweeps there were. */
  lemma {:induction false} NoLiveRecordDropped(events: seq<Event>)
    requires Fresh(events)
    ensures var h := After(events); Live(h.s.guards, h.live) == Live(h.registered, h.live)
  {
    if events != [] {
      var before, event := events[..|events| - 1], events[|events| - 1];
      NoLiveRecordDropped(before);
      var h, h' := After(before), After(events);
      match event
      case Register(guard) =>
        KeepsRegistered(before);
        assert !Known(before, guard);
        LiveSame(h.s.guards, h.live, h'.live);
        LiveSame(h.registered, h.live, h'.live);
        LiveTwice(h.s.guards, h'.live, h'.live);
        LiveAppend(h.s.guards, guard, h'.live);
        LiveAppend(Live(h.s.guards, h'.live), guard, h'.live);
        LiveAppend(h.registered, guard, h'.live);
      case Drop(guard) =>
        LiveTwice(h.s.guards, h.live, h'.live);
        LiveTwice(h.registered, h.live, h'.live);
      case Read => LiveTwice(h.s.guards, h.live, h.live);
    }
  }

  /** Memory is bounded by the live guards, and sweeping by the registrations: the registry is never
      longer than 16 or twice the live count at its last sweep, and the sweeps that registrations
      start have together scanned at most two entries for each registration. */
  lemma {:induction false} SweepingIsAmortized(events: seq<Event>)
    ensures var h := After(events);
            && h.s.threshold == 2 * h.swept
            && |h.s.guards| <= Max(MIN_SWEEP_THRESHOLD, 2 * h.swept)
            && h.swept <= |h.s.guards| && |h.s.guards| - h.swept <= |h.registered|
            && h.scanned <= 2 * (|h.registered| - (|h.s.guards| - h.swept))
    ensures After(events).scanned <= 2 * |After(events).registered|
  {
    if events != [] {
      var before, event := events[..|events| - 1], events[|events| - 1];
      SweepingIsAmortized(before);
      var h := After(before);
      match event
      case Register(guard) => LiveTwice(h.s.guards, h.live + {guard}, h.live + {guard});
      case Drop(guard) =>
      case Read => LiveTwice(h.s.guards, h.live, h.live);
    }
  }
}
