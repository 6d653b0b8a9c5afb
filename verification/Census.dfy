/** `guard_count_subtree`: at quiescence it visits each live descendant once, and its sum is the
    number of guards homed in the subtree. */
module Census {
  import opened Memory
  import opened Protocol
  import opened Ledger
  import opened Invariant
  import opened LifeSteps
  import opened Runs
  import opened Safety

  // ---- The traversal --------------------------------------------------------------------------------------

  /** The live children that a registry lists under keys below `bound`, in the order of their slots. */
  ghost function Entries(nodes: seq<Node>, children: map<nat, nat>, bound: nat): seq<nat> {
    if bound == 0 then []
    else
      var rest, k := Entries(nodes, children, bound - 1), bound - 1;
      if k in children && children[k] < |nodes| && nodes[children[k]].life.Live? then rest + [children[k]] else rest
  }

  /** A key beyond all those in use: the registry's number of slots. */
  ghost function SlotsEnd(keys: set<nat>): (end: nat)
    ensures forall k :: k in keys ==> k < end
  {
    if k :| k in keys then
      var rest := SlotsEnd(keys - {k});
      assert forall j :: j in keys ==> j == k || j in keys - {k};
      if rest > k then rest else k + 1
    else 0
  }

  /** `live_children`, over the first `shards` shards. */
  ghost function Visited(nodes: seq<Node>, n: nat, shards: nat): seq<nat>
    requires n < |nodes| && shards <= |nodes[n].shards|
  {
    if shards == 0 then []
    else
      var children := nodes[n].shards[shards - 1].children;
      Visited(nodes, n, shards - 1) + Entries(nodes, children, SlotsEnd(children.Keys))
  }

  ghost function LocalSum(shards: seq<Shard>): int {
    if shards == [] then 0 else LocalSum(shards[..|shards| - 1]) + shards[|shards| - 1].word.local
  }

  /** The child is listed on the shard, under a key below `bound`. */
  ghost predicate Entered(nodes: seq<Node>, n: nat, s: nat, bound: nat, c: nat)
    requires ValidShard(nodes, n, s)
  {
    var children := nodes[n].shards[s].children;
    c < |nodes| && nodes[c].life.Live? && nodes[c].link.Child? && nodes[c].link.key.Some?
    && nodes[c].link == Child(n, s, nodes[c].link.key) && nodes[c].link.key.value < bound
    && nodes[c].link.key.value in children && children[nodes[c].link.key.value] == c
  }

  lemma {:induction false} EntriesOnce(nodes: seq<Node>, n: nat, s: nat, bound: nat, c: nat)
    requires Registries(nodes) && ValidShard(nodes, n, s)
    ensures multiset(Entries(nodes, nodes[n].shards[s].children, bound))[c] == One(Entered(nodes, n, s, bound, c))
  {
    if bound > 0 {
      EntriesOnce(nodes, n, s, bound - 1, c);
      assert EntryOk(nodes, n, s, bound - 1);
    }
  }

  lemma EnteredListed(nodes: seq<Node>, n: nat, s: nat, c: nat)
    requires ValidShard(nodes, n, s)
    ensures Entered(nodes, n, s, SlotsEnd(nodes[n].shards[s].children.Keys), c)
       <==> (c < |nodes| && nodes[c].life.Live? && Listed(nodes, c) && nodes[c].link.parent == n && nodes[c].link.shard == s)
  {
  }

  lemma {:induction false} VisitedOnce(nodes: seq<Node>, n: nat, shards: nat, c: nat)
    requires Registries(nodes) && n < |nodes| && shards <= |nodes[n].shards|
    ensures multiset(Visited(nodes, n, shards))[c]
         == One(c < |nodes| && nodes[c].life.Live? && Listed(nodes, c) && nodes[c].link.parent == n && nodes[c].link.shard < shards)
  {
    hide Registries, Entered, Entries;
    if shards > 0 {
      var children := nodes[n].shards[shards - 1].children;
      EnteredListed(nodes, n, shards - 1, c);
      VisitedOnce(nodes, n, shards - 1, c);
      EntriesOnce(nodes, n, shards - 1, SlotsEnd(children.Keys), c);
    }
  }

  lemma ParentBefore(nodes: seq<Node>, c: nat)
    requires Forest(nodes)
    ensures IsChild(nodes, c) ==> nodes[c].link.parent < c
  {
  }

  ghost predicate IsVisited(nodes: seq<Node>, n: nat, c: nat) {
    n < c && IsChild(nodes, c) && nodes[c].link.parent == n
  }

  lemma VisitedBelow(nodes: seq<Node>, n: nat, shards: nat)
    requires Forest(nodes) && Registries(nodes) && n < |nodes| && shards <= |nodes[n].shards|
    ensures forall c :: c in Visited(nodes, n, shards) ==> IsVisited(nodes, n, c)
    ensures forall k :: 0 <= k < |Visited(nodes, n, shards)| ==> n < Visited(nodes, n, shards)[k] < |nodes|
  {
    hide Registries, Visited, Forest;
    var visited := Visited(nodes, n, shards);
    forall c | c in visited ensures IsVisited(nodes, n, c) {
      assert c in multiset(visited);
      VisitedOnce(nodes, n, shards, c);
      ParentBefore(nodes, c);
    }
    assert forall k :: 0 <= k < |visited| ==> visited[k] in visited;
  }

  /** `guard_count_subtree`. */
  ghost function GuardCount(nodes: seq<Node>, n: nat): int
    requires Forest(nodes) && Registries(nodes) && n < |nodes|
    decreases |nodes| - n, 1, 0
  {
    VisitedBelow(nodes, n, |nodes[n].shards|);
    LocalSum(nodes[n].shards) + GuardCounts(nodes, n, Visited(nodes, n, |nodes[n].shards|))
  }

  /** The sum over the visited children of `n`. */
  ghost function GuardCounts(nodes: seq<Node>, n: nat, visited: seq<nat>): int
    requires Forest(nodes) && Registries(nodes) && n < |nodes| && forall k :: 0 <= k < |visited| ==> n < visited[k] < |nodes|
    decreases |nodes| - n, 0, |visited|
  {
    if visited == [] then 0
    else GuardCounts(nodes, n, visited[..|visited| - 1]) + GuardCount(nodes, visited[|visited| - 1])
  }

  // ---- Guards by subtree ----------------------------------------------------------------------------------

  /** The guards homed in the subtree of `n`. */
  ghost function Sub(nodes: seq<Node>, guards: multiset<Home>, n: nat): (g: multiset<Home>)
    ensures forall h :: g[h] == if Within(nodes, n, h.node) then guards[h] else 0
    decreases |guards|
  {
    if h :| h in guards then
      var rest := Sub(nodes, guards - multiset{h}, n);
      if Within(nodes, n, h.node) then rest + multiset{h} else rest
    else multiset{}
  }

  ghost function SubAll(nodes: seq<Node>, guards: multiset<Home>, visited: seq<nat>): multiset<Home> {
    if visited == [] then multiset{}
    else SubAll(nodes, guards, visited[..|visited| - 1]) + Sub(nodes, guards, visited[|visited| - 1])
  }

  /** The guards homed on the first `shards` shards of `n`. */
  ghost function Locals(guards: multiset<Home>, n: nat, shards: nat): (g: multiset<Home>)
    ensures forall h :: g[h] == if h.node == n && h.shard < shards then guards[h] else 0
  {
    if shards == 0 then multiset{}
    else
      var h := Home(n, shards - 1);
      Locals(guards, n, shards - 1)[h := guards[h]]
  }

  lemma {:induction false} LocalsCount(nodes: seq<Node>, guards: multiset<Home>, n: nat, shards: nat)
    requires n < |nodes| && shards <= |nodes[n].shards|
    requires forall s :: 0 <= s < shards ==> nodes[n].shards[s].word.local == guards[Home(n, s)]
    ensures LocalSum(nodes[n].shards[..shards]) == |Locals(guards, n, shards)|
  {
    if shards > 0 {
      LocalsCount(nodes, guards, n, shards - 1);
      assert nodes[n].shards[..shards][..shards - 1] == nodes[n].shards[..shards - 1];
    }
  }

  lemma {:induction false} SubAllNone(nodes: seq<Node>, guards: multiset<Home>, visited: seq<nat>, h: Home)
    requires forall c :: c in visited ==> !Within(nodes, c, h.node)
    ensures SubAll(nodes, guards, visited)[h] == 0
  {
    if visited != [] { SubAllNone(nodes, guards, visited[..|visited| - 1], h); }
  }

  lemma {:induction false} SubAllOne(nodes: seq<Node>, guards: multiset<Home>, visited: seq<nat>, h: Home, c: nat)
    requires multiset(visited)[c] == 1 && Within(nodes, c, h.node)
    requires forall d :: d in visited && d != c ==> !Within(nodes, d, h.node)
    ensures SubAll(nodes, guards, visited)[h] == guards[h]
  {
    var front, last := visited[..|visited| - 1], visited[|visited| - 1];
    assert visited == front + [last];
    if last == c {
      assert c !in multiset(front);
      SubAllNone(nodes, guards, front, h);
    } else {
      assert c in multiset(front);
      SubAllOne(nodes, guards, front, h, c);
    }
  }

  lemma {:induction false} WithinAtMost(nodes: seq<Node>, a: nat, n: nat)
    requires Within(nodes, a, n)
    ensures a <= n
    decreases n
  {
    if a != n { WithinAtMost(nodes, a, nodes[n].link.parent); }
  }

  /** Two ancestors of one node are on one path. */
  lemma {:induction false} AncestorsInLine(nodes: seq<Node>, a: nat, b: nat, n: nat)
    requires Within(nodes, a, n) && Within(nodes, b, n) && a <= b
    ensures Within(nodes, a, b)
    decreases n
  {
    if b != n {
      WithinAtMost(nodes, b, n);
      AncestorsInLine(nodes, a, b, nodes[n].link.parent);
    }
  }

  /** The child of `a` on the path down to `n`. */
  lemma {:induction false} ChildToward(nodes: seq<Node>, a: nat, n: nat) returns (c: nat)
    requires Within(nodes, a, n) && a != n
    ensures IsChild(nodes, c) && nodes[c].link.parent == a && a < c && Within(nodes, c, n)
    decreases n
  {
    if nodes[n].link.parent == a {
      c := n;
    } else {
      c := ChildToward(nodes, a, nodes[n].link.parent);
    }
  }

  lemma {:induction false} LiveUpTo(sys: Sys, a: nat, n: nat)
    requires Inv(sys) && Within(sys.nodes, a, n) && sys.nodes[n].life.Live?
    ensures a < |sys.nodes| && sys.nodes[a].life.Live?
    decreases n
  {
    hide Inv;
    if a != n {
      LiveParent(sys, n);
      LiveUpTo(sys, a, sys.nodes[n].link.parent);
    }
  }

  /** At quiescence the visited children are the live ones. */
  lemma QuiescentListed(sys: Sys, c: nat)
    requires Inv(sys) && Quiescent(sys) && IsChild(sys.nodes, c) && sys.nodes[c].life.Live?
    ensures Listed(sys.nodes, c)
  {
    hide ThreadTokens, Words, Latches, Stacks, Waiters, Lives, Balanced, Duties, Departures;
    QuiescentLife(sys, c);
  }

  /** No visited child is above `x`. */
  ghost predicate NoneAbove(nodes: seq<Node>, visited: seq<nat>, x: nat) {
    forall d :: d in visited ==> !Within(nodes, d, x)
  }

  /** `c` is visited once, and is the one visited child that is above `x`. */
  ghost predicate OneAbove(nodes: seq<Node>, visited: seq<nat>, x: nat, c: nat) {
    multiset(visited)[c] == 1 && Within(nodes, c, x) && forall d :: d in visited && d != c ==> !Within(nodes, d, x)
  }

  lemma ListedShard(nodes: seq<Node>, c: nat)
    requires Listed(nodes, c)
    ensures IsChild(nodes, c) && nodes[c].link.parent < |nodes| && nodes[c].link.shard < |nodes[nodes[c].link.parent].shards|
  {
  }

  /** A node below another has a parent. */
  lemma WithinChild(nodes: seq<Node>, n: nat, c: nat, x: nat)
    requires IsChild(nodes, c) && Within(nodes, n, x) && x != n
    ensures IsChild(nodes, x)
  {
  }

  lemma OneChildToward(nodes: seq<Node>, n: nat, c: nat, d: nat, x: nat)
    requires IsChild(nodes, c) && IsChild(nodes, d) && nodes[c].link.parent == n && nodes[d].link.parent == n && n < c && n < d
    requires Within(nodes, c, x) && Within(nodes, d, x)
    ensures c == d
  {
    var a, b := if c <= d then c else d, if c <= d then d else c;
    AncestorsInLine(nodes, a, b, x);
    if a != b { WithinAtMost(nodes, a, n); }
  }

  /** A live node strictly below `n` is below exactly one visited child; any other is below none. */
  lemma VisitedToward(sys: Sys, n: nat, x: nat) returns (c: nat)
    requires Inv(sys) && Quiescent(sys) && n < |sys.nodes| && x < |sys.nodes| && Forest(sys.nodes) && Registries(sys.nodes)
    requires sys.nodes[x].link.Child? ==> sys.nodes[x].life.Live?
    ensures var visited := Visited(sys.nodes, n, |sys.nodes[n].shards|);
            if x != n && Within(sys.nodes, n, x) then OneAbove(sys.nodes, visited, x, c) else NoneAbove(sys.nodes, visited, x)
  {
    hide Inv, Quiescent, Registries, Listed;
    var nodes, visited := sys.nodes, Visited(sys.nodes, n, |sys.nodes[n].shards|);
    VisitedBelow(nodes, n, |nodes[n].shards|);
    c := 0;
    if x != n && Within(nodes, n, x) {
      c := ChildToward(nodes, n, x);
      WithinChild(nodes, n, c, x);
      LiveUpTo(sys, c, x);
      QuiescentListed(sys, c);
      VisitedOnce(nodes, n, |nodes[n].shards|, c);
      ListedShard(nodes, c);
      forall d | d in visited && d != c ensures !Within(nodes, d, x) {
        if Within(nodes, d, x) { OneChildToward(nodes, n, c, d, x); }
      }
    } else {
      forall d | d in visited ensures !Within(nodes, d, x) {
        if Within(nodes, d, x) {
          WithinAtMost(nodes, d, x);
          assert Within(nodes, n, d);
          WithinTransitive(nodes, n, d, x);
        }
      }
    }
  }

  lemma {:induction false} SubAllOnlyGuards(nodes: seq<Node>, guards: multiset<Home>, visited: seq<nat>, h: Home)
    requires h !in guards
    ensures SubAll(nodes, guards, visited)[h] == 0
  {
    if visited != [] { SubAllOnlyGuards(nodes, guards, visited[..|visited| - 1], h); }
  }

  lemma GuardHome(sys: Sys, h: Home)
    requires Lives(sys.nodes, sys.guards)
    ensures h in sys.guards ==> ValidShard(sys.nodes, h.node, h.shard) && (sys.nodes[h.node].link.Child? ==> sys.nodes[h.node].life.Live?)
  {
  }

  /** A guard of the subtree is at the node itself, or below exactly one visited child. */
  lemma SubSplits(sys: Sys, n: nat, h: Home)
    requires Inv(sys) && Quiescent(sys) && n < |sys.nodes| && Forest(sys.nodes) && Registries(sys.nodes) && Lives(sys.nodes, sys.guards)
    ensures Sub(sys.nodes, sys.guards, n)[h] == Locals(sys.guards, n, |sys.nodes[n].shards|)[h]
                                              + SubAll(sys.nodes, sys.guards, Visited(sys.nodes, n, |sys.nodes[n].shards|))[h]
  {
    hide Inv, Quiescent, Registries, Lives, Listed;
    var nodes, visited := sys.nodes, Visited(sys.nodes, n, |sys.nodes[n].shards|);
    GuardHome(sys, h);
    if h in sys.guards {
      var c := VisitedToward(sys, n, h.node);
      if h.node != n && Within(nodes, n, h.node) {
        SubAllOne(nodes, sys.guards, visited, h, c);
      } else {
        SubAllNone(nodes, sys.guards, visited, h);
      }
    } else {
      SubAllOnlyGuards(nodes, sys.guards, visited, h);
    }
  }

  lemma QuiescentLocals(sys: Sys, n: nat, s: nat)
    requires Inv(sys) && Quiescent(sys) && ValidShard(sys.nodes, n, s)
    ensures sys.nodes[n].shards[s].word.local == sys.guards[Home(n, s)]
  {
    hide ThreadTokens, WordTokens, Words, Latches, Registries, Stacks, Waiters, Lives, Duties, Departures;
    QuiescentHoldsNothing(sys);
    LocalUnitNotInWords(sys.nodes, n, s);
    assert Counter(sys.nodes, LocalUnit(n, s)) == Owners(sys.nodes, sys.guards, ThreadTokens(sys.threads), LocalUnit(n, s));
  }

  lemma {:induction false} CountsSub(sys: Sys, n: nat)
    requires Inv(sys) && Quiescent(sys) && n < |sys.nodes| && Forest(sys.nodes) && Registries(sys.nodes) && Lives(sys.nodes, sys.guards)
    ensures GuardCount(sys.nodes, n) == |Sub(sys.nodes, sys.guards, n)|
    decreases |sys.nodes| - n, 1, 0
  {
    hide Inv, Quiescent, Registries, Lives;
    var nodes, size := sys.nodes, |sys.nodes[n].shards|;
    var visited := Visited(nodes, n, size);
    VisitedBelow(nodes, n, size);
    CountsSubAll(sys, n, visited);
    forall s: nat | s < size ensures nodes[n].shards[s].word.local == sys.guards[Home(n, s)] { QuiescentLocals(sys, n, s); }
    LocalsCount(nodes, sys.guards, n, size);
    assert nodes[n].shards[..size] == nodes[n].shards;
    forall h ensures Sub(nodes, sys.guards, n)[h] == (Locals(sys.guards, n, size) + SubAll(nodes, sys.guards, visited))[h] { SubSplits(sys, n, h); }
    assert Sub(nodes, sys.guards, n) == Locals(sys.guards, n, size) + SubAll(nodes, sys.guards, visited);
  }

  lemma {:induction false} CountsSubAll(sys: Sys, n: nat, visited: seq<nat>)
    requires Inv(sys) && Quiescent(sys) && n < |sys.nodes| && Forest(sys.nodes) && Registries(sys.nodes) && Lives(sys.nodes, sys.guards)
    requires forall k :: 0 <= k < |visited| ==> n < visited[k] < |sys.nodes|
    ensures GuardCounts(sys.nodes, n, visited) == |SubAll(sys.nodes, sys.guards, visited)|
    decreases |sys.nodes| - n, 0, |visited|
  {
    hide Inv, Quiescent, Registries, Lives, GuardCount;
    if visited != [] {
      CountsSubAll(sys, n, visited[..|visited| - 1]);
      CountsSub(sys, visited[|visited| - 1]);
    }
  }

  /** At quiescence, `guard_count_subtree` is the number of guards homed in the subtree. */
  lemma QuiescentCensus(sys: Sys, n: nat, subtree: multiset<Home>)
    requires Reachable(sys) && Quiescent(sys) && n < |sys.nodes|
    requires forall h :: subtree[h] == if Within(sys.nodes, n, h.node) then sys.guards[h] else 0
    ensures Forest(sys.nodes) && Registries(sys.nodes) && GuardCount(sys.nodes, n) == |subtree|
  {
    hide Reachable, Inv, Quiescent, Registries, Lives, GuardCount;
    ReachableInv(sys);
    InvFacts(sys);
    WordsForest(sys.nodes);
    CountsSub(sys, n);
    assert subtree == Sub(sys.nodes, sys.guards, n);
  }

  /** In every reachable state, each registered live child is visited once, and nothing else is. */
  lemma VisitsEachChildOnce(sys: Sys, n: nat, c: nat)
    requires Reachable(sys) && n < |sys.nodes|
    ensures multiset(Visited(sys.nodes, n, |sys.nodes[n].shards|))[c]
         == One(IsChild(sys.nodes, c) && sys.nodes[c].link.parent == n && sys.nodes[c].life.Live? && sys.nodes[c].link.key.Some?)
  {
    hide Reachable, Inv, ThreadTokens, Stacks, Balanced, Duties, Waiters, Lives;
    ReachableInv(sys);
    InvFacts(sys);
    VisitedOnce(sys.nodes, n, |sys.nodes[n].shards|, c);
  }

  // ---- The traversal over a run -----------------------------------------------------------------------------

  lemma {:induction false} LinkLasts(run: seq<Sys>, i: nat, j: nat, c: nat)
    requires IsRun(run) && i <= j < |run| && IsChild(run[i].nodes, c)
    ensures IsChild(run[j].nodes, c)
    ensures run[j].nodes[c].link.parent == run[i].nodes[c].link.parent && run[j].nodes[c].link.shard == run[i].nodes[c].link.shard
    decreases j
  {
    hide Inv, Enabled, Apply, Init, Listed;
    if i < j {
      LinkLasts(run, i, j - 1, c);
      RunInv(run, j - 1);
      assert Next(run[j - 1], run[j - 1 + 1]);
      var action :| Enabled(run[j - 1], action) && run[j] == Apply(run[j - 1], action);
      InvStep(run[j - 1], action);
      assert NodeEvolves(run[j - 1].nodes[c], run[j].nodes[c]);
    }
  }

  /** The instants of a run at which a traversal of `n` takes the lock of each shard, in turn. */
  ghost predicate Instants(run: seq<Sys>, times: seq<nat>, n: nat) {
    forall s :: 0 <= s < |times| ==> times[s] < |run| && ValidShard(run[times[s]].nodes, n, s)
  }

  /** `live_children`, each shard read at its own instant. */
  ghost function VisitedAt(run: seq<Sys>, times: seq<nat>, n: nat): seq<nat>
    requires Instants(run, times, n)
    decreases |times|
  {
    if times == [] then []
    else
      var s := |times| - 1;
      var nodes := run[times[s]].nodes;
      var children := nodes[n].shards[s].children;
      VisitedAt(run, times[..s], n) + Entries(nodes, children, SlotsEnd(children.Keys))
  }

  /** The child is alive and registered. */
  ghost predicate LiveEntry(nodes: seq<Node>, c: nat) {
    IsChild(nodes, c) && nodes[c].life.Live? && nodes[c].link.key.Some?
  }

  lemma EntryIsLive(sys: Sys, n: nat, s: nat, c: nat)
    requires Inv(sys) && ValidShard(sys.nodes, n, s)
    ensures var children := sys.nodes[n].shards[s].children;
            multiset(Entries(sys.nodes, children, SlotsEnd(children.Keys)))[c] ==
              One(LiveEntry(sys.nodes, c) && sys.nodes[c].link.parent == n && sys.nodes[c].link.shard == s)
  {
    hide ThreadTokens, Stacks, Balanced, Duties, Waiters, Lives, Entries, Entered;
    EntriesOnce(sys.nodes, n, s, SlotsEnd(sys.nodes[n].shards[s].children.Keys), c);
    EnteredListed(sys.nodes, n, s, c);
  }

  /** However calls interleave with a traversal, it visits each child of the node at most once: exactly if
      the child is alive and registered at the instant at which its own shard is read. */
  lemma {:induction false} TraversalVisitsOnce(run: seq<Sys>, times: seq<nat>, n: nat, c: nat)
    requires IsRun(run) && Instants(run, times, n)
    ensures var last := run[|run| - 1].nodes;
            multiset(VisitedAt(run, times, n))[c] ==
              One(IsChild(last, c) && last[c].link.parent == n && last[c].link.shard < |times|
                  && LiveEntry(run[times[last[c].link.shard]].nodes, c))
    decreases |times|
  {
    hide Inv, Init, Next, Entries, Listed;
    if times != [] {
      var s, last := |times| - 1, |run| - 1;
      TraversalVisitsOnce(run, times[..s], n, c);
      RunInv(run, times[s]);
      EntryIsLive(run[times[s]], n, s, c);
      if IsChild(run[times[s]].nodes, c) { LinkLasts(run, times[s], last, c); }
      if IsChild(run[last].nodes, c) && run[last].nodes[c].link.shard < s {
        assert times[..s][run[last].nodes[c].link.shard] == times[run[last].nodes[c].link.shard];
      }
    }
  }
}
