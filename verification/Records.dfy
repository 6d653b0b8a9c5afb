/** Guard reports. On a tree that keeps them, every guard has a provenance record, which the registry of
    its shard holds weakly: an arrival registers a record first and then counts its guard, a guard
    that an interrupt counts on its own shard is recorded right after, a clone registers before it
    counts, and a guard's record goes some time after its departure. */
module Records {
  import opened Memory
  import opened Protocol
  import opened Bags
  import opened Ledger
  import opened Invariant
  import opened LifeSteps
  import opened Runs
  import opened GuardCalls
  import opened Safety
  import opened Census
  import G = GuardRegistries

  /** The protocol's state, and the records. `homes` is where each record ever made was registered.
      Thread `t` is in `pending` with the record of the guard that it is about to count; `cloning` are
      those of clones; `attached` those of guards; `dying` those of guards that have departed.
      `unrecorded` are guards whose record is yet to be made. */
  datatype Recorded = Recorded(
    sys: Sys,
    registries: map<Home, G.State>,
    homes: map<nat, Home>,
    pending: map<nat, nat>,
    cloning: set<nat>,
    attached: set<nat>,
    dying: set<nat>,
    unrecorded: multiset<Home>)

  function Registry(r: Recorded, h: Home): G.State {
    if h in r.registries then r.registries[h] else G.State([], 0)
  }

  /** The records that an upgrade reaches. */
  function LiveIds(r: Recorded): set<nat> {
    r.pending.Values + r.cloning + r.attached + r.dying
  }

  datatype Event =
    /** A transition of the protocol; `id` is the record that it attaches to a guard or detaches. */
    | Step(action: Action, id: nat)
    /** Thread `t` registers a record for the guard that it is about to count. */
    | Provenance(t: nat, id: nat)
    | CloneProvenance(h: Home, id: nat)
    | ProbeProvenance(h: Home, id: nat)
    | DropRecord(id: nat)
    | Read(h: Home)

  /** A new record, which is live from here on. */
  function Register(r: Recorded, h: Home, id: nat): Recorded {
    r.(registries := r.registries[h := G.Registered(Registry(r, h), id, LiveIds(r) + {id})], homes := r.homes[id := h])
  }

  predicate AttachedTo(r: Recorded, id: nat, h: Home) {
    id in r.attached && id in r.homes && r.homes[id] == h
  }

  predicate StepEnabled(r: Recorded, action: Action, id: nat) {
    && Enabled(r.sys, action)
    && match action
       case Run(t, _) => Creates(Last(r.sys.threads[t])) ==> t in r.pending && id == r.pending[t]
       case CloneGuard(h) => id in r.cloning && id in r.homes && r.homes[id] == h
       case DropGuard(_, h) => AttachedTo(r, id, h)
       case _ => true
  }

  predicate CanOccur(r: Recorded, event: Event) {
    match event
    case Step(action, id) => StepEnabled(r, action, id)
    case Provenance(t, id) =>
      && t < |r.sys.threads| && |r.sys.threads[t]| == 1 && t !in r.pending && id !in r.homes
      && Creates(r.sys.threads[t][0]) && r.sys.threads[t][0].spc.Load?
    case CloneProvenance(h, id) => h in r.sys.guards && id !in r.homes
    case ProbeProvenance(h, id) => h in r.unrecorded && id !in r.homes
    case DropRecord(id) => id in r.dying
    case Read(_) => true
  }

  function RunRecorded(r: Recorded, t: nat, ch: Choice): Recorded
    requires Enabled(r.sys, Run(t, ch)) && (Creates(Last(r.sys.threads[t])) ==> t in r.pending)
  {
    var f, sys' := Last(r.sys.threads[t]), Advance(r.sys, t, ch);
    if sys'.guards == r.sys.guards then r.(sys := sys')
    else if Creates(f) then r.(sys := sys', pending := r.pending - {t}, attached := r.attached + {r.pending[t]})
    else if f.Probe? then r.(sys := sys', unrecorded := r.unrecorded + multiset{Home(f.n, f.s)})
    else r.(sys := sys')
  }

  function StepRecorded(r: Recorded, action: Action, id: nat): Recorded
    requires StepEnabled(r, action, id)
  {
    match action
    case Run(t, ch) => RunRecorded(r, t, ch)
    case CloneGuard(_) => r.(sys := Protocol.Apply(r.sys, action), cloning := r.cloning - {id}, attached := r.attached + {id})
    case DropGuard(_, _) => r.(sys := Protocol.Apply(r.sys, action), attached := r.attached - {id}, dying := r.dying + {id})
    case _ => r.(sys := Protocol.Apply(r.sys, action))
  }

  function After(r: Recorded, event: Event): Recorded
    requires CanOccur(r, event)
  {
    match event
    case Step(action, id) => StepRecorded(r, action, id)
    case Provenance(t, id) =>
      var f := r.sys.threads[t][0];
      Register(r, Home(f.n, f.s), id).(pending := r.pending[t := id])
    case CloneProvenance(h, id) => Register(r, h, id).(cloning := r.cloning + {id})
    case ProbeProvenance(h, id) => Register(r, h, id).(attached := r.attached + {id}, unrecorded := r.unrecorded - multiset{h})
    case DropRecord(id) => r.(dying := r.dying - {id})
    case Read(h) => r.(registries := r.registries[h := G.Swept(Registry(r, h), LiveIds(r))])
  }

  ghost predicate Start(r: Recorded) {
    && Init(r.sys) && r.registries == map[] && r.homes == map[] && r.pending == map[]
    && r.cloning == {} && r.attached == {} && r.dying == {} && r.unrecorded == multiset{}
  }

  ghost predicate Follows(r: Recorded, r': Recorded) {
    exists event :: CanOccur(r, event) && r' == After(r, event)
  }

  ghost predicate IsHistory(run: seq<Recorded>) {
    |run| > 0 && Start(run[0]) && forall i :: 0 <= i < |run| - 1 ==> Follows(run[i], run[i + 1])
  }

  ghost predicate Occurs(r: Recorded) {
    exists run :: IsHistory(run) && run[|run| - 1] == r
  }

  // ---- The invariant --------------------------------------------------------------------------------------

  /** Each live record belongs to one guard, arrival or clone. */
  ghost predicate Disjoint(r: Recorded) {
    && r.pending.Values !! r.cloning !! r.attached !! r.dying
    && LiveIds(r) <= r.homes.Keys
    && forall t, u :: t in r.pending && u in r.pending && t != u ==> r.pending[t] != r.pending[u]
  }

  /** A live record is in the registry of its own shard, once, and in no other. */
  ghost predicate Filed(r: Recorded, h: Home) {
    && (forall x :: x in LiveIds(r) && x in r.homes ==> multiset(Registry(r, h).guards)[x] == if r.homes[x] == h then 1 else 0)
    && (forall x :: x in Registry(r, h).guards ==> x in r.homes)
  }

  ghost function AttachedAt(r: Recorded, h: Home): set<nat> {
    set id | id in r.attached && id in r.homes && r.homes[id] == h
  }

  /** Every guard has a record, or is about to. */
  ghost predicate Counted(r: Recorded) {
    forall h :: |AttachedAt(r, h)| + r.unrecorded[h] == r.sys.guards[h]
  }

  /** A pending record belongs to the arrival at the bottom of its thread's stack; an arrival that is
      past its first step has one. */
  ghost predicate PendingOk(r: Recorded, t: nat) {
    && (t in r.pending ==> t < |r.sys.threads| && |r.sys.threads[t]| > 0 && Creates(r.sys.threads[t][0])
                           && r.pending[t] in r.homes && r.homes[r.pending[t]] == Home(r.sys.threads[t][0].n, r.sys.threads[t][0].s))
    && (t < |r.sys.threads| && |r.sys.threads[t]| > 0 && Creates(r.sys.threads[t][0]) ==>
          t in r.pending || (|r.sys.threads[t]| == 1 && r.sys.threads[t][0].spc.Load?))
  }

  ghost predicate RecordsOk(r: Recorded) {
    && Inv(r.sys) && Disjoint(r) && Counted(r)
    && (forall h :: Filed(r, h)) && (forall t: nat :: PendingOk(r, t))
  }

  // ---- Registrations ----------------------------------------------------------------------------------------

  lemma {:induction false} LiveCount(guards: seq<nat>, live: set<nat>, x: nat)
    ensures multiset(G.Live(guards, live))[x] == if x in live then multiset(guards)[x] else 0
  {
    if guards != [] {
      LiveCount(guards[..|guards| - 1], live, x);
      assert guards == guards[..|guards| - 1] + [guards[|guards| - 1]];
    }
  }

  lemma RegisteredCount(s: G.State, id: nat, live: set<nat>, x: nat)
    requires x in live
    ensures multiset(G.Registered(s, id, live).guards)[x] == multiset(s.guards)[x] + if x == id then 1 else 0
  {
    LiveCount(s.guards, live, x);
  }

  lemma RegisteredKnown(s: G.State, id: nat, live: set<nat>)
    ensures forall x :: x in G.Registered(s, id, live).guards ==> x == id || x in s.guards
  {
    G.LiveMembers(s.guards, live);
  }

  /** Filing a new record keeps the others filed. */
  lemma RegisterFiles(r: Recorded, h: Home, id: nat, r': Recorded, g: Home)
    requires Filed(r, g) && LiveIds(r) <= r.homes.Keys && id !in r.homes
    requires r'.registries == Register(r, h, id).registries && r'.homes == Register(r, h, id).homes && LiveIds(r') == LiveIds(r) + {id}
    ensures Filed(r', g)
  {
    hide G.Registered, LiveIds;
    assert id !in multiset(Registry(r, g).guards);
    if g == h {
      RegisteredKnown(Registry(r, h), id, LiveIds(r) + {id});
      forall x | x in LiveIds(r') && x in r'.homes
        ensures multiset(Registry(r', g).guards)[x] == if r'.homes[x] == g then 1 else 0
      {
        RegisteredCount(Registry(r, h), id, LiveIds(r) + {id}, x);
      }
    }
  }

  lemma SameLive(r: Recorded, r': Recorded)
    requires r'.pending == r.pending && r'.cloning == r.cloning && r'.attached == r.attached && r'.dying == r.dying
    ensures LiveIds(r') == LiveIds(r)
  {
  }

  lemma ReadFiles(r: Recorded, h: Home, g: Home)
    requires Filed(r, g)
    ensures Filed(After(r, Read(h)), g)
  {
    hide LiveIds;
    var r' := After(r, Read(h));
    assert LiveIds(r') == LiveIds(r) by { SameLive(r, r'); }
    if g == h {
      G.LiveMembers(Registry(r, h).guards, LiveIds(r));
      forall x | x in LiveIds(r') && x in r'.homes
        ensures multiset(Registry(r', g).guards)[x] == if r'.homes[x] == g then 1 else 0
      {
        LiveCount(Registry(r, h).guards, LiveIds(r), x);
      }
    }
  }

  /** Records that stay, or go, stay filed. */
  lemma FewerFiled(r: Recorded, r': Recorded, g: Home)
    requires Filed(r, g) && r'.registries == r.registries && r'.homes == r.homes && LiveIds(r') <= LiveIds(r)
    ensures Filed(r', g)
  {
    hide LiveIds;
  }

  // ---- Every event ------------------------------------------------------------------------------------------

  /** The record belongs to a guard homed in the subtree of `n`. */
  ghost predicate Below(r: Recorded, n: nat, x: nat) {
    x in r.attached && x in r.homes && Within(r.sys.nodes, n, r.homes[x].node)
  }

  lemma BottomReplaced(r: Recorded, t: nat, ch: Choice)
    requires Enabled(r.sys, Run(t, ch)) && StackOk(r.sys.nodes, r.sys.threads[t]) && |r.sys.threads[t]| == 1
    requires PendingOk(r, t) && (Creates(Last(r.sys.threads[t])) ==> t in r.pending)
    ensures PendingOk(RunRecorded(r, t, ch), t)
  {
    hide Perform, Safe, Allowed, StackOk, Below;
    MovedBottom(r.sys, t, ch);
    CreateShape(r.sys, Last(r.sys.threads[t]), ch);
  }

  lemma BottomKept(r: Recorded, t: nat, ch: Choice)
    requires Enabled(r.sys, Run(t, ch)) && StackOk(r.sys.nodes, r.sys.threads[t]) && |r.sys.threads[t]| > 1
    requires PendingOk(r, t) && (Creates(Last(r.sys.threads[t])) ==> t in r.pending)
    ensures PendingOk(RunRecorded(r, t, ch), t)
  {
    hide Perform, Safe, Allowed, StackOk, Below;
    MovedBottom(r.sys, t, ch);
  }

  /** What a transition of one thread does to the calls of that thread that create guards. */
  lemma BottomPending(r: Recorded, t: nat, ch: Choice)
    requires Enabled(r.sys, Run(t, ch)) && StackOk(r.sys.nodes, r.sys.threads[t])
    requires PendingOk(r, t) && (Creates(Last(r.sys.threads[t])) ==> t in r.pending)
    ensures PendingOk(RunRecorded(r, t, ch), t)
  {
    hide Perform, Safe, Allowed, StackOk, Below, PendingOk, RunRecorded;
    if |r.sys.threads[t]| == 1 { BottomReplaced(r, t, ch); } else { BottomKept(r, t, ch); }
  }

  lemma RunPending(r: Recorded, t: nat, ch: Choice, u: nat)
    requires Enabled(r.sys, Run(t, ch)) && StackOk(r.sys.nodes, r.sys.threads[t])
    requires PendingOk(r, t) && PendingOk(r, u) && (Creates(Last(r.sys.threads[t])) ==> t in r.pending)
    ensures PendingOk(RunRecorded(r, t, ch), u)
  {
    hide Perform, Safe, Allowed, StackOk, Below;
    if u == t { BottomPending(r, t, ch); }
  }

  /** Attaching or detaching one record changes one count. */
  lemma AttachOne(r: Recorded, r': Recorded, id: nat, g: Home)
    requires id !in r.attached && id in r.homes && r'.homes == r.homes && r'.attached == r.attached + {id}
    ensures |AttachedAt(r', g)| == |AttachedAt(r, g)| + if r.homes[id] == g then 1 else 0
  {
    assert AttachedAt(r', g) == if r.homes[id] == g then AttachedAt(r, g) + {id} else AttachedAt(r, g);
  }

  lemma PendingWithout(pending: map<nat, nat>, t: nat)
    requires t in pending && forall a, b :: a in pending && b in pending && a != b ==> pending[a] != pending[b]
    ensures (pending - {t}).Values == pending.Values - {pending[t]}
  {
    var rest := pending - {t};
    forall x | x in rest.Values ensures x in pending.Values - {pending[t]} {
      var a :| a in rest && rest[a] == x;
      assert pending[a] == x;
    }
    forall x | x in pending.Values - {pending[t]} ensures x in rest.Values {
      var a :| a in pending && pending[a] == x;
      assert rest[a] == x;
    }
  }

  lemma RunDisjoint(r: Recorded, t: nat, ch: Choice)
    requires Disjoint(r) && Enabled(r.sys, Run(t, ch)) && (Creates(Last(r.sys.threads[t])) ==> t in r.pending)
    ensures var r' := RunRecorded(r, t, ch);
            Disjoint(r') && LiveIds(r') == LiveIds(r) && r'.homes == r.homes && r'.registries == r.registries
  {
    hide Perform, Safe, Allowed;
    var r' := RunRecorded(r, t, ch);
    if r'.pending != r.pending {
      assert r'.pending.Values == r.pending.Values - {r.pending[t]} by { PendingWithout(r.pending, t); }
    }
  }

  lemma SameAttached(r: Recorded, r': Recorded, h: Home)
    requires r'.attached == r.attached && r'.homes == r.homes
    ensures AttachedAt(r', h) == AttachedAt(r, h)
  {
  }

  lemma RunCounted(r: Recorded, t: nat, ch: Choice)
    requires Counted(r) && Disjoint(r) && PendingOk(r, t) && Enabled(r.sys, Run(t, ch)) && StackOk(r.sys.nodes, r.sys.threads[t])
    requires Creates(Last(r.sys.threads[t])) ==> t in r.pending
    ensures Counted(RunRecorded(r, t, ch))
  {
    hide Perform, Safe, Allowed, StackOk, AttachedAt;
    var f, r' := Last(r.sys.threads[t]), RunRecorded(r, t, ch);
    CreateShape(r.sys, f, ch);
    MovedBottom(r.sys, t, ch);
    forall h ensures |AttachedAt(r', h)| + r'.unrecorded[h] == r'.sys.guards[h] {
      assert |AttachedAt(r, h)| + r.unrecorded[h] == r.sys.guards[h];
      if r'.attached == r.attached {
        SameAttached(r, r', h);
      } else {
        AttachOne(r, r', r.pending[t], h);
      }
    }
  }

  lemma RunKeepsRecords(r: Recorded, t: nat, ch: Choice)
    requires RecordsOk(r) && Enabled(r.sys, Run(t, ch)) && (Creates(Last(r.sys.threads[t])) ==> t in r.pending)
    ensures RecordsOk(RunRecorded(r, t, ch))
  {
    hide Inv, Perform, Safe, Allowed, StackOk, Filed, PendingOk;
    InvStep(r.sys, Run(t, ch));
    assert Protocol.Apply(r.sys, Run(t, ch)) == Advance(r.sys, t, ch);
    TopStack(r.sys, t);
    forall u: nat ensures PendingOk(RunRecorded(r, t, ch), u) {
      assert PendingOk(r, t) && PendingOk(r, u);
      RunPending(r, t, ch, u);
    }
    RunCounted(r, t, ch);
    forall g ensures Filed(RunRecorded(r, t, ch), g) {
      assert Filed(r, g);
      RunDisjoint(r, t, ch);
      FewerFiled(r, RunRecorded(r, t, ch), g);
    }
    RunDisjoint(r, t, ch);
  }

  lemma StartDisjoint(r: Recorded, action: Action, id: nat)
    requires Disjoint(r) && StepEnabled(r, action, id) && !action.Run?
    ensures var r' := StepRecorded(r, action, id); Disjoint(r') && LiveIds(r') == LiveIds(r)
  {
    hide Enabled, Protocol.Apply;
    var r' := StepRecorded(r, action, id);
    assert LiveIds(r') == LiveIds(r);
  }

  lemma StartAttached(r: Recorded, action: Action, id: nat, h: Home)
    requires Disjoint(r) && StepEnabled(r, action, id) && !action.Run?
    ensures var r' := StepRecorded(r, action, id);
            |AttachedAt(r', h)| == match action case CloneGuard(g) => |AttachedAt(r, h)| + (if g == h then 1 else 0)
                                                case DropGuard(_, g) => |AttachedAt(r, h)| - (if g == h then 1 else 0)
                                                case _ => |AttachedAt(r, h)|
  {
    hide Enabled, Protocol.Apply;
    var r' := StepRecorded(r, action, id);
    if action.CloneGuard? {
      AttachOne(r, r', id, h);
    } else if action.DropGuard? {
      assert r.attached == r'.attached + {id};
      AttachOne(r', r, id, h);
    } else {
      SameAttached(r, r', h);
    }
  }

  lemma StartPending(r: Recorded, action: Action, id: nat, u: nat)
    requires StepEnabled(r, action, id) && !action.Run? && PendingOk(r, u)
    ensures PendingOk(StepRecorded(r, action, id), u)
  {
    hide Enabled, Protocol.Apply;
    StartShape(r.sys, action, u);
  }

  lemma StartKeepsRecords(r: Recorded, action: Action, id: nat)
    requires RecordsOk(r) && StepEnabled(r, action, id) && !action.Run?
    ensures RecordsOk(StepRecorded(r, action, id))
  {
    hide Inv, Enabled, Protocol.Apply, Filed, AttachedAt, Disjoint, PendingOk;
    var r' := StepRecorded(r, action, id);
    InvStep(r.sys, action);
    StartDisjoint(r, action, id);
    forall u: nat ensures PendingOk(r', u) {
      assert PendingOk(r, u);
      StartPending(r, action, id, u);
    }
    forall g ensures Filed(r', g) {
      assert Filed(r, g);
      FewerFiled(r, r', g);
    }
    forall h ensures |AttachedAt(r', h)| + r'.unrecorded[h] == r'.sys.guards[h] {
      assert |AttachedAt(r, h)| + r.unrecorded[h] == r.sys.guards[h];
      StartShape(r.sys, action, 0);
      StartAttached(r, action, id, h);
    }
  }

  lemma PendingWith(pending: map<nat, nat>, t: nat, id: nat)
    requires t !in pending
    ensures pending[t := id].Values == pending.Values + {id}
  {
    var more := pending[t := id];
    forall x | x in pending.Values + {id} ensures x in more.Values {
      if x == id {
        assert more[t] == x;
      } else {
        var a :| a in pending && pending[a] == x;
        assert more[a] == x;
      }
    }
  }

  /** The three events that register a record. */
  predicate Makes(event: Event) {
    event.Provenance? || event.CloneProvenance? || event.ProbeProvenance?
  }

  /** The event adds its record to the live ones, and keeps each live record with one owner. */
  ghost predicate AddsRecord(r: Recorded, event: Event)
    requires CanOccur(r, event) && Makes(event)
  {
    Disjoint(After(r, event)) && LiveIds(After(r, event)) == LiveIds(r) + {event.id} && LiveIds(r) <= r.homes.Keys
  }

  lemma ThreadRecordLive(r: Recorded, t: nat, id: nat)
    requires Disjoint(r) && CanOccur(r, Provenance(t, id))
    ensures AddsRecord(r, Provenance(t, id))
  {
    hide G.Registered, Creates, Registry;
    PendingWith(r.pending, t, id);
    assert LiveIds(After(r, Provenance(t, id))) == LiveIds(r) + {id};
  }

  lemma CloneRecordLive(r: Recorded, h: Home, id: nat)
    requires Disjoint(r) && CanOccur(r, CloneProvenance(h, id))
    ensures AddsRecord(r, CloneProvenance(h, id))
  {
    hide G.Registered, Registry;
    assert LiveIds(After(r, CloneProvenance(h, id))) == LiveIds(r) + {id};
  }

  lemma ProbeRecordLive(r: Recorded, h: Home, id: nat)
    requires Disjoint(r) && CanOccur(r, ProbeProvenance(h, id))
    ensures AddsRecord(r, ProbeProvenance(h, id))
  {
    hide G.Registered, Registry;
    assert LiveIds(After(r, ProbeProvenance(h, id))) == LiveIds(r) + {id};
  }

  lemma ProvenanceLive(r: Recorded, event: Event)
    requires Disjoint(r) && CanOccur(r, event) && Makes(event)
    ensures AddsRecord(r, event)
  {
    hide CanOccur, AddsRecord, Disjoint;
    match event
    case Provenance(t, id) => ThreadRecordLive(r, t, id);
    case CloneProvenance(h, id) => CloneRecordLive(r, h, id);
    case ProbeProvenance(h, id) => ProbeRecordLive(r, h, id);
  }

  lemma ProvenanceAttached(r: Recorded, event: Event, h: Home, g: Home)
    requires Disjoint(r) && CanOccur(r, event) && Makes(event)
    requires h == if event.Provenance? then Home(r.sys.threads[event.t][0].n, r.sys.threads[event.t][0].s) else event.h
    ensures |AttachedAt(After(r, event), g)| == |AttachedAt(r, g)| + if event.ProbeProvenance? && g == h then 1 else 0
  {
    hide G.Registered, Enabled, Registry, Creates;
    var r', named := After(r, event), r.(homes := r.homes[event.id := h]);
    assert AttachedAt(named, g) == AttachedAt(r, g);
    if event.ProbeProvenance? { AttachOne(named, r', event.id, g); } else { assert AttachedAt(r', g) == AttachedAt(named, g); }
  }

  /** The events that make a record. */
  lemma ProvenancePending(r: Recorded, event: Event, u: nat)
    requires CanOccur(r, event) && Makes(event) && PendingOk(r, u)
    ensures PendingOk(After(r, event), u)
  {
    hide G.Registered, Enabled, LiveIds;
  }

  /** Where an event registers its record. */
  function PlaceOf(r: Recorded, event: Event): Home
    requires CanOccur(r, event) && Makes(event)
  {
    if event.Provenance? then Home(r.sys.threads[event.t][0].n, r.sys.threads[event.t][0].s) else event.h
  }

  /** The three registrations make one live record, known at its place; a drop ends one; and no other event makes or
      ends any. Seen from the protocol, an event is one of its actions or nothing. */
  lemma EventRecords(r: Recorded, event: Event)
    requires RecordsOk(r) && CanOccur(r, event)
    ensures LiveIds(After(r, event)) ==
              if Makes(event) then LiveIds(r) + {event.id} else if event.DropRecord? then LiveIds(r) - {event.id} else LiveIds(r)
    ensures After(r, event).homes == if Makes(event) then r.homes[event.id := PlaceOf(r, event)] else r.homes
    ensures After(r, event).sys == if event.Step? then Protocol.Apply(r.sys, event.action) else r.sys
  {
    hide Inv, Counted, Filed, PendingOk, Enabled, G.Registered, G.Swept;
    if Makes(event) {
      ProvenanceLive(r, event);
    } else if event.Step? {
      if event.action.Run? {
        RunDisjoint(r, event.action.t, event.action.ch);
      } else {
        StartDisjoint(r, event.action, event.id);
      }
    }
  }

  lemma ProvenanceKeepsRecords(r: Recorded, event: Event)
    requires RecordsOk(r) && CanOccur(r, event) && Makes(event)
    ensures RecordsOk(After(r, event))
  {
    hide Inv, Filed, AttachedAt, Disjoint, LiveIds, PendingOk, Enabled, G.Registered;
    var r' := After(r, event);
    var h := if event.Provenance? then Home(r.sys.threads[event.t][0].n, r.sys.threads[event.t][0].s) else event.h;
    ProvenanceLive(r, event);
    forall g ensures Filed(r', g) {
      assert Filed(r, g);
      RegisterFiles(r, h, event.id, r', g);
    }
    forall u: nat ensures PendingOk(r', u) {
      assert PendingOk(r, u);
      ProvenancePending(r, event, u);
    }
    forall g ensures |AttachedAt(r', g)| + r'.unrecorded[g] == r'.sys.guards[g] {
      assert |AttachedAt(r, g)| + r.unrecorded[g] == r.sys.guards[g];
      ProvenanceAttached(r, event, h, g);
    }
  }

  lemma QuietKeepsRecords(r: Recorded, event: Event)
    requires RecordsOk(r) && CanOccur(r, event) && (event.DropRecord? || event.Read?)
    ensures RecordsOk(After(r, event))
  {
    hide Inv, Filed, AttachedAt;
    var r' := After(r, event);
    forall g ensures Filed(r', g) {
      assert Filed(r, g);
      if event.Read? { ReadFiles(r, event.h, g); } else { FewerFiled(r, r', g); }
    }
    forall u: nat ensures PendingOk(r', u) { assert PendingOk(r, u); }
    forall g ensures |AttachedAt(r', g)| + r'.unrecorded[g] == r'.sys.guards[g] {
      assert |AttachedAt(r, g)| + r.unrecorded[g] == r.sys.guards[g];
      SameAttached(r, r', g);
    }
  }

  lemma EventKeepsRecords(r: Recorded, event: Event)
    requires RecordsOk(r) && CanOccur(r, event)
    ensures RecordsOk(After(r, event))
  {
    hide RecordsOk, Enabled, Protocol.Apply;
    match event
    case Step(action, id) =>
      if action.Run? { RunKeepsRecords(r, action.t, action.ch); } else { StartKeepsRecords(r, action, id); }
    case Provenance(_, _) => ProvenanceKeepsRecords(r, event);
    case CloneProvenance(_, _) => ProvenanceKeepsRecords(r, event);
    case ProbeProvenance(_, _) => ProvenanceKeepsRecords(r, event);
    case DropRecord(_) => QuietKeepsRecords(r, event);
    case Read(_) => QuietKeepsRecords(r, event);
  }

  lemma StartIsOk(r: Recorded)
    requires Start(r)
    ensures RecordsOk(r)
  {
    hide Inv;
    InitInv(r.sys);
    forall h ensures AttachedAt(r, h) == {} {}
  }

  lemma {:induction false} HistoryOk(run: seq<Recorded>, i: nat)
    requires IsHistory(run) && i < |run|
    ensures RecordsOk(run[i])
  {
    hide RecordsOk, CanOccur, After, Start;
    if i == 0 {
      StartIsOk(run[0]);
    } else {
      HistoryOk(run, i - 1);
      assert Follows(run[i - 1], run[i - 1 + 1]);
      var event :| CanOccur(run[i - 1], event) && run[i] == After(run[i - 1], event);
      EventKeepsRecords(run[i - 1], event);
    }
  }

  lemma LiveKnown(r: Recorded, x: nat)
    requires Disjoint(r)
    ensures x in LiveIds(r) ==> x in r.homes
  {
  }

  /** In every state that occurs, a report on a shard sees exactly its live records, each once. */
  lemma ReportSeesLive(r: Recorded, h: Home, x: nat)
    requires Occurs(r)
    ensures multiset(G.Live(Registry(r, h).guards, LiveIds(r)))[x] == if x in LiveIds(r) && x in r.homes && r.homes[x] == h then 1 else 0
  {
    hide Follows, Start, Inv, LiveIds;
    var run :| IsHistory(run) && run[|run| - 1] == r;
    HistoryOk(run, |run| - 1);
    LiveCount(Registry(r, h).guards, LiveIds(r), x);
    assert Filed(r, h);
    LiveKnown(r, x);
  }

  // ---- Records hold nothing back ------------------------------------------------------------------------------

  /** The protocol's action can be taken now. */
  ghost predicate CanStep(r: Recorded, action: Action) {
    exists id: nat :: CanOccur(r, Step(action, id))
  }

  lemma FreshId(r: Recorded) returns (id: nat)
    ensures id !in r.homes
  {
    id := AboveAll(r.homes.Keys);
  }

  lemma CreatesAlone(nodes: seq<Node>, stack: seq<Frame>)
    requires StackOk(nodes, stack) && |stack| > 0 && Creates(Last(stack))
    ensures |stack| == 1
  {
    hide FrameOk, Touches, Anchored;
    assert |stack| > 1 ==> Calls(stack[|stack| - 2], stack[|stack| - 1]);
  }

  lemma RunGoesOn(r: Recorded, t: nat, ch: Choice) returns (event: Event)
    requires RecordsOk(r) && Enabled(r.sys, Run(t, ch))
    ensures CanStep(r, Run(t, ch)) || (Makes(event) && CanOccur(r, event) && CanStep(After(r, event), Run(t, ch)))
  {
    hide Inv, Disjoint, Counted, Filed, StackOk, G.Registered, Safe, Allowed;
    event := Read(Home(0, 0));
    TopStack(r.sys, t);
    assert PendingOk(r, t);
    if !Creates(Last(r.sys.threads[t])) {
      assert CanOccur(r, Step(Run(t, ch), 0));
    } else if t in r.pending {
      assert CanOccur(r, Step(Run(t, ch), r.pending[t]));
    } else {
      CreatesAlone(r.sys.nodes, r.sys.threads[t]);
      var id := FreshId(r);
      event := Provenance(t, id);
      assert CanOccur(After(r, event), Step(Run(t, ch), id));
    }
  }

  lemma CloneGoesOn(r: Recorded, h: Home) returns (event: Event)
    requires Enabled(r.sys, CloneGuard(h))
    ensures Makes(event) && CanOccur(r, event) && CanStep(After(r, event), CloneGuard(h))
  {
    hide G.Registered;
    var id := FreshId(r);
    event := CloneProvenance(h, id);
    assert CanOccur(After(r, event), Step(CloneGuard(h), id));
  }

  lemma DropGoesOn(r: Recorded, t: nat, h: Home) returns (event: Event)
    requires RecordsOk(r) && Enabled(r.sys, DropGuard(t, h))
    ensures CanStep(r, DropGuard(t, h)) || (Makes(event) && CanOccur(r, event) && CanStep(After(r, event), DropGuard(t, h)))
  {
    hide Inv, Disjoint, Filed, PendingOk, G.Registered;
    event := Read(h);
    assert |AttachedAt(r, h)| + r.unrecorded[h] == r.sys.guards[h];
    if h in r.unrecorded {
      var id := FreshId(r);
      event := ProbeProvenance(h, id);
      assert CanOccur(After(r, event), Step(DropGuard(t, h), id));
    } else {
      assert AttachedAt(r, h) != {};
      var id :| id in AttachedAt(r, h);
      assert CanOccur(r, Step(DropGuard(t, h), id));
    }
  }

  /** Every action of the protocol can be taken with records kept, if need be after one registration. */
  lemma RecordsGoOn(r: Recorded, action: Action) returns (event: Event)
    requires Occurs(r) && Enabled(r.sys, action)
    ensures CanStep(r, action) || (Makes(event) && CanOccur(r, event) && CanStep(After(r, event), action))
  {
    hide Follows, Start, RecordsOk, Makes, After, Enabled;
    var run :| IsHistory(run) && run[|run| - 1] == r;
    HistoryOk(run, |run| - 1);
    match action
    case Run(t, ch) => event := RunGoesOn(r, t, ch);
    case CloneGuard(h) => event := CloneGoesOn(r, h);
    case DropGuard(t, h) => event := DropGoesOn(r, t, h);
    case _ =>
      event := Read(Home(0, 0));
      assert CanOccur(r, Step(action, 0));
  }

  // ---- The census of records ----------------------------------------------------------------------------------

  /** `Shard::guard_infos`: the registry is swept, and its live records collected. */
  function ShardInfos(r: Recorded, h: Home): seq<nat> {
    G.Live(G.Swept(Registry(r, h), LiveIds(r)).guards, LiveIds(r))
  }

  function NodeInfos(r: Recorded, n: nat, shards: nat): seq<nat> {
    if shards == 0 then [] else NodeInfos(r, n, shards - 1) + ShardInfos(r, Home(n, shards - 1))
  }

  /** `guard_infos_subtree`. */
  ghost function Infos(r: Recorded, n: nat): seq<nat>
    requires Forest(r.sys.nodes) && Registries(r.sys.nodes) && n < |r.sys.nodes|
    decreases |r.sys.nodes| - n, 1, 0
  {
    VisitedBelow(r.sys.nodes, n, |r.sys.nodes[n].shards|);
    NodeInfos(r, n, |r.sys.nodes[n].shards|) + ChildInfos(r, n, Visited(r.sys.nodes, n, |r.sys.nodes[n].shards|))
  }

  ghost function ChildInfos(r: Recorded, n: nat, visited: seq<nat>): seq<nat>
    requires Forest(r.sys.nodes) && Registries(r.sys.nodes) && n < |r.sys.nodes|
    requires forall k :: 0 <= k < |visited| ==> n < visited[k] < |r.sys.nodes|
    decreases |r.sys.nodes| - n, 0, |visited|
  {
    if visited == [] then []
    else ChildInfos(r, n, visited[..|visited| - 1]) + Infos(r, visited[|visited| - 1])
  }

  /** No call is in progress, no clone is being made, and no dropped guard's record is still there. */
  ghost predicate Still(r: Recorded) {
    Quiescent(r.sys) && r.cloning == {} && r.dying == {} && r.unrecorded == multiset{}
  }

  /** Then every live record is a guard's. */
  lemma StillAttached(r: Recorded)
    requires RecordsOk(r) && Still(r)
    ensures LiveIds(r) == r.attached && forall h :: |AttachedAt(r, h)| == r.sys.guards[h]
  {
    hide Inv, Filed, AttachedAt;
    forall t: nat ensures t !in r.pending { assert PendingOk(r, t); }
    assert r.pending.Values == {};
    forall h ensures |AttachedAt(r, h)| == r.sys.guards[h] { assert |AttachedAt(r, h)| + r.unrecorded[h] == r.sys.guards[h]; }
  }

  lemma ShardInfosOnce(r: Recorded, h: Home, x: nat)
    requires RecordsOk(r) && Still(r)
    ensures multiset(ShardInfos(r, h))[x] == One(AttachedTo(r, x, h))
  {
    hide Inv, AttachedAt;
    StillAttached(r);
    G.LiveTwice(Registry(r, h).guards, LiveIds(r), LiveIds(r));
    LiveCount(Registry(r, h).guards, LiveIds(r), x);
    assert Filed(r, h);
  }

  lemma ShardInfosSize(r: Recorded, h: Home)
    requires RecordsOk(r) && Still(r)
    ensures |ShardInfos(r, h)| == r.sys.guards[h]
  {
    hide Inv, Still, ShardInfos, RecordsOk;
    StillAttached(r);
    forall x ensures multiset(ShardInfos(r, h))[x] == multiset(AttachedAt(r, h))[x] { ShardInfosOnce(r, h, x); }
    assert multiset(ShardInfos(r, h)) == multiset(AttachedAt(r, h));
    assert |multiset(ShardInfos(r, h))| == |ShardInfos(r, h)|;
  }

  lemma StillLocals(r: Recorded, n: nat, s: nat)
    requires RecordsOk(r) && Still(r) && ValidShard(r.sys.nodes, n, s)
    ensures r.sys.nodes[n].shards[s].word.local == r.sys.guards[Home(n, s)]
  {
    hide Inv, Disjoint, Counted, Filed, PendingOk, Quiescent;
    QuiescentLocals(r.sys, n, s);
  }

  lemma {:induction false} NodeInfosSize(r: Recorded, n: nat, shards: nat)
    requires RecordsOk(r) && Still(r) && n < |r.sys.nodes| && shards <= |r.sys.nodes[n].shards|
    ensures |NodeInfos(r, n, shards)| == LocalSum(r.sys.nodes[n].shards[..shards])
  {
    hide RecordsOk, Still, ShardInfos;
    if shards > 0 {
      NodeInfosSize(r, n, shards - 1);
      ShardInfosSize(r, Home(n, shards - 1));
      StillLocals(r, n, shards - 1);
      var all := r.sys.nodes[n].shards;
      assert all[..shards][..shards - 1] == all[..shards - 1];
    }
  }

  /** A report collects as many records as `guard_count_subtree` counts guards. */
  lemma {:induction false} InfosSize(r: Recorded, n: nat)
    requires RecordsOk(r) && Still(r) && Forest(r.sys.nodes) && Registries(r.sys.nodes) && n < |r.sys.nodes|
    ensures |Infos(r, n)| == GuardCount(r.sys.nodes, n)
    decreases |r.sys.nodes| - n, 1, 0
  {
    hide RecordsOk, Still, Registries, Forest, NodeInfos;
    var shards := r.sys.nodes[n].shards;
    VisitedBelow(r.sys.nodes, n, |shards|);
    NodeInfosSize(r, n, |shards|);
    assert shards[..|shards|] == shards;
    ChildInfosSize(r, n, Visited(r.sys.nodes, n, |shards|));
  }

  lemma {:induction false} ChildInfosSize(r: Recorded, n: nat, visited: seq<nat>)
    requires RecordsOk(r) && Still(r) && Forest(r.sys.nodes) && Registries(r.sys.nodes) && n < |r.sys.nodes|
    requires forall k :: 0 <= k < |visited| ==> n < visited[k] < |r.sys.nodes|
    ensures |ChildInfos(r, n, visited)| == GuardCounts(r.sys.nodes, n, visited)
    decreases |r.sys.nodes| - n, 0, |visited|
  {
    hide RecordsOk, Still, Registries, Forest, Infos, GuardCount;
    if visited != [] {
      ChildInfosSize(r, n, visited[..|visited| - 1]);
      InfosSize(r, visited[|visited| - 1]);
    }
  }

  lemma {:induction false} NodeInfosOnce(r: Recorded, n: nat, shards: nat, x: nat)
    requires RecordsOk(r) && Still(r)
    ensures multiset(NodeInfos(r, n, shards))[x] == One(x in r.attached && x in r.homes && r.homes[x].node == n && r.homes[x].shard < shards)
  {
    hide RecordsOk, Still, ShardInfos;
    if shards > 0 {
      NodeInfosOnce(r, n, shards - 1, x);
      ShardInfosOnce(r, Home(n, shards - 1), x);
    }
  }

  /** An attached record's home is a shard, of a live node or of a root. */
  lemma AttachedHome(r: Recorded, x: nat)
    requires RecordsOk(r) && x in r.attached && x in r.homes
    ensures r.homes[x] in r.sys.guards
  {
    hide Inv, Filed, PendingOk, Disjoint;
    var h := r.homes[x];
    assert x in AttachedAt(r, h);
    assert |AttachedAt(r, h)| + r.unrecorded[h] == r.sys.guards[h];
  }

  lemma TowardRecord(r: Recorded, n: nat, x: nat) returns (c: nat)
    requires RecordsOk(r) && Still(r) && n < |r.sys.nodes| && Forest(r.sys.nodes) && Registries(r.sys.nodes)
    requires x in r.homes && r.homes[x].node < |r.sys.nodes|
    requires var node := r.sys.nodes[r.homes[x].node]; node.link.Child? ==> node.life.Live?
    ensures var nodes, m := r.sys.nodes, r.homes[x].node;
            var visited := Visited(nodes, n, |nodes[n].shards|);
            if m != n && Within(nodes, n, m) then OneAbove(nodes, visited, m, c) else NoneAbove(nodes, visited, m)
  {
    hide Inv, Disjoint, Counted, Filed, PendingOk, Quiescent, Registries, Forest, OneAbove, NoneAbove;
    c := VisitedToward(r.sys, n, r.homes[x].node);
  }

  /** A report collects each record of the subtree's guards once, and nothing else. */
  lemma {:induction false} InfosOnce(r: Recorded, n: nat, x: nat)
    requires RecordsOk(r) && Still(r) && n < |r.sys.nodes|
    requires Forest(r.sys.nodes) && Registries(r.sys.nodes) && Lives(r.sys.nodes, r.sys.guards)
    ensures multiset(Infos(r, n))[x] == One(Below(r, n, x))
    decreases |r.sys.nodes| - n, 1, 0
  {
    hide RecordsOk, Still, Registries, Forest, Lives, NodeInfos;
    var nodes, size := r.sys.nodes, |r.sys.nodes[n].shards|;
    var visited := Visited(nodes, n, size);
    VisitedBelow(nodes, n, size);
    NodeInfosOnce(r, n, size, x);
    if x in r.attached && x in r.homes {
      AttachedHome(r, x);
      GuardHome(r.sys, r.homes[x]);
      var c := TowardRecord(r, n, x);
      if r.homes[x].node != n && Within(nodes, n, r.homes[x].node) {
        ChildInfosOne(r, n, visited, x, c);
      } else {
        ChildInfosNone(r, n, visited, x);
      }
    } else {
      ChildInfosNone(r, n, visited, x);
    }
  }

  lemma {:induction false} ChildInfosNone(r: Recorded, n: nat, visited: seq<nat>, x: nat)
    requires RecordsOk(r) && Still(r) && n < |r.sys.nodes|
    requires Forest(r.sys.nodes) && Registries(r.sys.nodes) && Lives(r.sys.nodes, r.sys.guards)
    requires forall k :: 0 <= k < |visited| ==> n < visited[k] < |r.sys.nodes| && !Below(r, visited[k], x)
    ensures multiset(ChildInfos(r, n, visited))[x] == 0
    decreases |r.sys.nodes| - n, 0, |visited|
  {
    hide RecordsOk, Still, Registries, Forest, Lives, Infos, Below;
    if visited != [] {
      ChildInfosNone(r, n, visited[..|visited| - 1], x);
      InfosOnce(r, visited[|visited| - 1], x);
    }
  }

  lemma {:induction false} ChildInfosOne(r: Recorded, n: nat, visited: seq<nat>, x: nat, c: nat)
    requires RecordsOk(r) && Still(r) && n < |r.sys.nodes|
    requires Forest(r.sys.nodes) && Registries(r.sys.nodes) && Lives(r.sys.nodes, r.sys.guards)
    requires forall k :: 0 <= k < |visited| ==> n < visited[k] < |r.sys.nodes| && (visited[k] != c ==> !Below(r, visited[k], x))
    requires multiset(visited)[c] == 1 && Below(r, c, x)
    ensures multiset(ChildInfos(r, n, visited))[x] == 1
    decreases |r.sys.nodes| - n, 0, |visited|
  {
    hide RecordsOk, Still, Registries, Forest, Lives, Infos, Below;
    var front, last := visited[..|visited| - 1], visited[|visited| - 1];
    assert visited == front + [last];
    InfosOnce(r, last, x);
    if last == c {
      assert forall k :: 0 <= k < |front| ==> front[k] in multiset(front);
      ChildInfosNone(r, n, front, x);
    } else {
      ChildInfosOne(r, n, front, x, c);
    }
  }

  /** With no call in progress and no record in the making or on its way out, a report on a node collects
      the record of each guard homed in its subtree, once, and as many as `guard_count_subtree` counts. */
  lemma RecordsCensus(r: Recorded, n: nat, x: nat)
    requires Occurs(r) && Still(r) && n < |r.sys.nodes|
    ensures Forest(r.sys.nodes) && Registries(r.sys.nodes) && |Infos(r, n)| == GuardCount(r.sys.nodes, n)
    ensures multiset(Infos(r, n))[x] == One(x in r.attached && x in r.homes && Within(r.sys.nodes, n, r.homes[x].node))
    ensures forall h :: |AttachedAt(r, h)| == r.sys.guards[h]
  {
    hide Follows, Start, Inv, Still, Infos, GuardCount, Registries, Lives, Counted, Disjoint, Filed, PendingOk;
    var run :| IsHistory(run) && run[|run| - 1] == r;
    HistoryOk(run, |run| - 1);
    InvFacts(r.sys);
    WordsForest(r.sys.nodes);
    InfosSize(r, n);
    InfosOnce(r, n, x);
    StillAttached(r);
  }
}
