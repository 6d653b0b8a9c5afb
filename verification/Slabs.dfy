/** `Slab`: values under stable keys, with a free list threaded through the vacant slots. It refines
    a finite map. */
module Slabs {
  import opened Memory

  datatype Slot<T> = Occupied(value: T) | Vacant(next: nat)

  /** `slots`, and `next_vacant`. */
  datatype State<T> = State(slots: seq<Slot<T>>, next: nat)

  /** The map that the slab stands for. */
  function Contents<T>(s: State<T>): map<nat, T> {
    map k | 0 <= k < |s.slots| && s.slots[k].Occupied? :: s.slots[k].value
  }

  /** The entry of a free list at a position, or its end. */
  function Entry(free: seq<nat>, i: nat, size: nat): nat {
    if i < |free| then free[i] else size
  }

  predicate Distinct(list: seq<nat>) {
    forall i, j :: 0 <= i < j < |list| ==> list[i] != list[j]
  }

  /** `free` is the free list: it starts at `next`, runs through every vacant slot once, and ends at
      the number of slots. */
  ghost predicate Links<T>(s: State<T>, free: seq<nat>) {
    && s.next == Entry(free, 0, |s.slots|)
    && (forall i :: 0 <= i < |free| ==> free[i] < |s.slots| && s.slots[free[i]] == Vacant(Entry(free, i + 1, |s.slots|)))
    && Distinct(free)
    && (forall k :: 0 <= k < |s.slots| && s.slots[k].Vacant? ==> k in free)
  }

  ghost predicate Valid<T>(s: State<T>) {
    exists free :: Links(s, free)
  }

  /** `insert`, without the key that it returns, which is `s.next`. */
  function Inserted<T>(s: State<T>, value: T): State<T> {
    if s.next < |s.slots| then
      match s.slots[s.next]
      case Vacant(next) => State(s.slots[s.next := Occupied(value)], next)
      case Occupied(_) => s
    else
      State(s.slots + [Occupied(value)], |s.slots| + 1)
  }

  /** `remove`, without the value that it returns. */
  function Removed<T>(s: State<T>, key: nat): State<T> {
    if key < |s.slots| && s.slots[key].Occupied? then State(s.slots[key := Vacant(s.next)], key) else s
  }

  function Elements(list: seq<nat>): (keys: set<nat>)
    requires Distinct(list)
    ensures |keys| == |list| && forall k :: k in keys <==> k in list
  {
    if list == [] then {}
    else
      var front, last := list[..|list| - 1], list[|list| - 1];
      assert list == front + [last];
      Elements(front) + {last}
  }

  function Below(n: nat): (keys: set<nat>)
    ensures |keys| == n && forall k :: k in keys <==> 0 <= k < n
  {
    if n == 0 then {} else Below(n - 1) + {n - 1}
  }

  function Max(a: nat, b: nat): nat {
    if a >= b then a else b
  }

  /** A slot is occupied or on the free list. */
  lemma SlotCases<T>(s: State<T>, free: seq<nat>, k: nat)
    requires Links(s, free)
    ensures k in Contents(s).Keys <==> k < |s.slots| && s.slots[k].Occupied?
    ensures k in free <==> k < |s.slots| && s.slots[k].Vacant?
  {
    if k in free { var i :| 0 <= i < |free| && free[i] == k; }
  }

  lemma LinksDistinct<T>(s: State<T>, free: seq<nat>)
    requires Links(s, free)
    ensures Distinct(free)
  {
  }

  /** Occupied and vacant slots make up the slab. */
  lemma SizeOf<T>(s: State<T>, free: seq<nat>)
    requires Links(s, free)
    ensures |Contents(s)| + |free| == |s.slots|
  {
    hide Links, Contents;
    LinksDistinct(s, free);
    var keys, vacant := Contents(s).Keys, Elements(free);
    forall k: nat ensures (k in keys || k in vacant <==> k in Below(|s.slots|)) && !(k in keys && k in vacant) { SlotCases(s, free, k); }
    assert keys + vacant == Below(|s.slots|) && keys !! vacant;
    assert |keys + vacant| == |keys| + |vacant|;
  }

  lemma InsertContents<T>(s: State<T>, value: T, free: seq<nat>)
    requires Links(s, free)
    ensures var s' := Inserted(s, value);
            && s.next !in Contents(s) && Contents(s') == Contents(s)[s.next := value]
            && |s'.slots| == if free == [] then |s.slots| + 1 else |s.slots|
  {
    assert Contents(Inserted(s, value)) == Contents(s)[s.next := value];
  }

  lemma AppendLinks<T>(s: State<T>, value: T)
    requires Links(s, [])
    ensures Links(Inserted(s, value), [])
  {
  }

  lemma InsertLinks<T>(s: State<T>, value: T, free: seq<nat>)
    requires Links(s, free) && free != []
    ensures Links(Inserted(s, value), free[1..])
  {
    var s', rest := Inserted(s, value), free[1..];
    forall k | 0 <= k < |s'.slots| && s'.slots[k].Vacant? ensures k in rest {
      var i :| 0 <= i < |free| && free[i] == k;
      assert rest[i - 1] == k;
    }
  }

  /** Inserting adds the value under a vacant key, and adds a slot only when all are occupied. */
  lemma InsertRefines<T>(s: State<T>, value: T)
    requires Valid(s)
    ensures var s' := Inserted(s, value);
            && Valid(s') && s.next !in Contents(s) && Contents(s') == Contents(s)[s.next := value]
            && |s'.slots| == Max(|s.slots|, |Contents(s')|)
  {
    hide Links, Contents, Inserted;
    var free :| Links(s, free);
    SizeOf(s, free);
    InsertContents(s, value, free);
    if free == [] {
      AppendLinks(s, value);
      SizeOf(Inserted(s, value), []);
    } else {
      InsertLinks(s, value, free);
      SizeOf(Inserted(s, value), free[1..]);
    }
  }

  lemma RemoveLinks<T>(s: State<T>, key: nat, free: seq<nat>)
    requires Links(s, free) && key < |s.slots| && s.slots[key].Occupied?
    ensures Links(Removed(s, key), [key] + free)
  {
    var s', longer := Removed(s, key), [key] + free;
    assert forall i :: 0 < i < |longer| ==> longer[i] == free[i - 1];
    forall i | 0 <= i < |longer| ensures longer[i] < |s'.slots| && s'.slots[longer[i]] == Vacant(Entry(longer, i + 1, |s'.slots|)) {
      if i > 0 { assert longer[i] == free[i - 1]; }
    }
    forall k | 0 <= k < |s'.slots| && s'.slots[k].Vacant? ensures k in longer {
      assert k == key || k in free;
    }
  }

  lemma RemoveContents<T>(s: State<T>, key: nat)
    ensures var s' := Removed(s, key);
            Contents(s') == Contents(s) - {key} && |s'.slots| == |s.slots| && (key !in Contents(s) ==> s' == s)
            && (key in Contents(s) ==> key < |s.slots| && s.slots[key].Occupied?)
  {
    assert Contents(Removed(s, key)) == Contents(s) - {key};
  }

  /** Removing takes out the value under the key; without one, it changes nothing at all. */
  lemma RemoveRefines<T>(s: State<T>, key: nat)
    requires Valid(s)
    ensures var s' := Removed(s, key);
            Valid(s') && Contents(s') == Contents(s) - {key} && |s'.slots| == |s.slots| && (key !in Contents(s) ==> s' == s)
  {
    hide Links, Contents, Removed;
    RemoveContents(s, key);
    if key in Contents(s) {
      var free :| Links(s, free);
      RemoveLinks(s, key, free);
    }
  }

  // ---- Sequences of operations ----------------------------------------------------------------------------

  datatype Op<T> = Insert(value: T) | Remove(key: nat)

  function Empty<T>(): State<T> {
    State([], 0)
  }

  function Apply<T>(s: State<T>, op: Op<T>): State<T> {
    match op
    case Insert(value) => Inserted(s, value)
    case Remove(key) => Removed(s, key)
  }

  function Run<T>(ops: seq<Op<T>>): State<T> {
    if ops == [] then Empty() else Apply(Run(ops[..|ops| - 1]), ops[|ops| - 1])
  }

  /** The most values held at any time during the operations. */
  function Peak<T>(ops: seq<Op<T>>): nat {
    if ops == [] then 0 else Max(Peak(ops[..|ops| - 1]), |Contents(Run(ops))|)
  }

  /** After any operations, the free list is intact, and there are as many slots as the most values
      ever held at once. */
  lemma {:induction false} SlotsArePeak<T>(ops: seq<Op<T>>)
    ensures Valid(Run(ops)) && |Run(ops).slots| == Peak(ops)
  {
    if ops == [] {
      assert Links(Empty<T>(), []);
    } else {
      var before, s, op := ops[..|ops| - 1], Run(ops[..|ops| - 1]), ops[|ops| - 1];
      SlotsArePeak(before);
      match op
      case Insert(value) => InsertRefines(s, value);
      case Remove(key) =>
        RemoveRefines(s, key);
        var free :| Links(Run(ops), free);
        SizeOf(Run(ops), free);
    }
  }

  // ---- The class ------------------------------------------------------------------------------------------

  /** The values under keys below `end`, in the order of their keys. */
  function Values<T>(contents: map<nat, T>, end: nat): seq<T> {
    if end == 0 then []
    else Values(contents, end - 1) + (if end - 1 in contents then [contents[end - 1]] else [])
  }

  class Slab<T> {
    var slots: seq<Slot<T>>
    var nextVacant: nat

    function Abstract(): State<T>
      reads this
    {
      State(slots, nextVacant)
    }

    constructor ()
      ensures Abstract() == Empty() && Valid(Abstract())
    {
      slots, nextVacant := [], 0;
      new;
      assert Links(Abstract(), []);
    }

    method Insert(value: T) returns (key: nat)
      requires Valid(Abstract())
      modifies this
      ensures Abstract() == Inserted(old(Abstract()), value) && key == old(nextVacant)
      ensures Valid(Abstract()) && key !in old(Contents(Abstract()))
      ensures Contents(Abstract()) == old(Contents(Abstract()))[key := value]
      ensures |slots| == Max(|old(slots)|, |Contents(Abstract())|)
    {
      InsertRefines(Abstract(), value);
      ghost var free :| Links(Abstract(), free);
      key := nextVacant;
      if key < |slots| {
        var next := slots[key].next;
        slots := slots[key := Occupied(value)];
        nextVacant := next;
      } else {
        slots := slots + [Occupied(value)];
        nextVacant := |slots|;
      }
      assert Abstract() == Inserted(old(Abstract()), value);
    }

    method Remove(key: nat) returns (removed: Option<T>)
      requires Valid(Abstract())
      modifies this
      ensures Abstract() == Removed(old(Abstract()), key) && Valid(Abstract())
      ensures Contents(Abstract()) == old(Contents(Abstract())) - {key}
      ensures removed == if key in old(Contents(Abstract())) then Some(old(Contents(Abstract()))[key]) else None
      ensures removed.None? ==> Abstract() == old(Abstract())
    {
      RemoveRefines(Abstract(), key);
      removed := None;
      if key < |slots| {
        match slots[key]
        case Occupied(value) =>
          slots := slots[key := Vacant(nextVacant)];
          nextVacant := key;
          removed := Some(value);
        case Vacant(_) =>
      }
      assert Abstract() == Removed(old(Abstract()), key);
    }

    method AllValues() returns (values: seq<T>)
      ensures values == Values(Contents(Abstract()), |slots|)
    {
      values := [];
      for k := 0 to |slots|
        invariant values == Values(Contents(Abstract()), k)
      {
        match slots[k]
        case Occupied(value) => values := values + [value];
        case Vacant(_) =>
      }
    }

    /** `mem::take`, then `into_values`: the slab is left as new. */
    method Drain() returns (values: seq<T>)
      modifies this
      ensures values == Values(old(Contents(Abstract())), |old(slots)|)
      ensures Abstract() == Empty() && Valid(Abstract())
    {
      values := AllValues();
      slots, nextVacant := [], 0;
      assert Links(Abstract(), []);
    }
  }

  ghost function KeysOf<T>(contents: map<nat, T>, end: nat, value: T): set<nat> {
    set k | k in contents && k < end && contents[k] == value
  }

  lemma OneMoreKey<T>(contents: map<nat, T>, end: nat, value: T)
    ensures var before, after := KeysOf(contents, end, value), KeysOf(contents, end + 1, value);
            |after| == if end in contents && contents[end] == value then |before| + 1 else |before|
  {
    var before, after := KeysOf(contents, end, value), KeysOf(contents, end + 1, value);
    assert after == if end in contents && contents[end] == value then before + {end} else before;
  }

  /** Each value is visited once for each key that holds it. */
  lemma {:induction false} ValuesOnce<T>(contents: map<nat, T>, end: nat, value: T)
    ensures multiset(Values(contents, end))[value] == |set k | k in contents && k < end && contents[k] == value|
  {
    assert KeysOf(contents, 0, value) == {};
    assert |KeysOf(contents, end, value)| == |set k | k in contents && k < end && contents[k] == value|;
    hide KeysOf;
    if end > 0 {
      ValuesOnce(contents, end - 1, value);
      OneMoreKey(contents, end - 1, value);
      assert |KeysOf(contents, end - 1, value)| == |set k | k in contents && k < end - 1 && contents[k] == value|;
    }
  }
}
