/** The packed `u64` words: each operation on one changes a single field of the record that it packs,
    without a carry or a borrow into another. The fields are as wide as the word, so that a field
    that leaves its range shows as a different record. */
module PackedWords {

  const LOCAL_ONE: bv64 := 1
  const LOCAL_MASK: bv64 := 0xFFFF_FFFF
  const KIDS_ONE: bv64 := 1 << 32
  const KIDS_MASK: bv64 := 0x3FFF_FFFF
  const STOPPED: bv64 := 1 << 62
  const ARRIVED: bv64 := 1 << 63
  const SHARDS_MASK: bv64 := 0xFFFF_FFFF
  const PARENT_SHARD_MASK: bv64 := 0xFFFF

  // ---- A shard's word -------------------------------------------------------------------------------------

  datatype ShardFields = ShardFields(arrived: bool, stopped: bool, kids: bv64, local: bv64)

  /** The record that a shard's word packs. */
  function ShardOf(w: bv64): ShardFields {
    ShardFields(w & ARRIVED != 0, w & STOPPED != 0, (w >> 32) & KIDS_MASK, w & LOCAL_MASK)
  }

  /** Comparing words is comparing records. */
  lemma ShardWordsCompare(a: bv64, b: bv64)
    ensures a == b <==> ShardOf(a) == ShardOf(b)
  {
  }

  /** Adding a unit to a word adds one to the unit's own count and leaves the other fields alone, if
      and only if that count has room for it. */
  ghost predicate Adds(before: bv64, unit: bv64, after: bv64) {
    var f, g := ShardOf(before), ShardOf(after);
    && (unit == LOCAL_ONE ==> (g == f.(local := f.local + 1) <==> f.local != LOCAL_MASK))
    && (unit == KIDS_ONE ==> (g == f.(kids := f.kids + 1) <==> f.kids != KIDS_MASK))
  }

  lemma AddLocal(w: bv64)
    ensures Adds(w, LOCAL_ONE, w + LOCAL_ONE)
  {
  }

  lemma AddKid(w: bv64)
    ensures Adds(w, KIDS_ONE, w + KIDS_ONE)
  {
  }

  /** Subtracting a unit takes one from the unit's own count and leaves the other fields alone, if and
      only if there is one to take. */
  ghost predicate Subtracts(before: bv64, unit: bv64, after: bv64) {
    var f, g := ShardOf(before), ShardOf(after);
    && (unit == LOCAL_ONE ==> (g == f.(local := f.local - 1) <==> f.local != 0))
    && (unit == KIDS_ONE ==> (g == f.(kids := f.kids - 1) <==> f.kids != 0))
  }

  lemma SubtractLocal(w: bv64)
    ensures Subtracts(w, LOCAL_ONE, w - LOCAL_ONE)
  {
  }

  lemma SubtractKid(w: bv64)
    ensures Subtracts(w, KIDS_ONE, w - KIDS_ONE)
  {
  }

  /** The first arrival at an empty shard sets its bit and counts its unit. */
  lemma FirstArrival(w: bv64)
    requires w & !STOPPED == 0
    ensures ShardOf(w) == ShardFields(false, w & STOPPED != 0, 0, 0)
    ensures ShardOf(w | ARRIVED | LOCAL_ONE) == ShardFields(true, w & STOPPED != 0, 0, 1)
    ensures ShardOf(w | ARRIVED | KIDS_ONE) == ShardFields(true, w & STOPPED != 0, 1, 0)
  {
  }

  lemma StopShard(w: bv64)
    ensures ShardOf(w | STOPPED) == ShardOf(w).(stopped := true)
  {
  }

  /** The words that shards are compared with: an emptying departure, a stop that finds the shard
      empty, and a flush. */
  lemma ComparedWords(w: bv64)
    ensures w == ARRIVED | STOPPED <==> ShardOf(w) == ShardFields(true, true, 0, 0)
    ensures w & !STOPPED == ARRIVED <==> ShardOf(w).(stopped := true) == ShardFields(true, true, 0, 0)
    ensures ShardOf(STOPPED) == ShardFields(false, true, 0, 0)
  {
  }

  // ---- A node's word --------------------------------------------------------------------------------------

  datatype NodeFields = NodeFields(arrived: bool, stopped: bool, home: bv64, count: bv64)

  /** The index of the parent shard, as a departure reads it. */
  function HomeIn(w: bv64): bv64 {
    (w >> 32) & PARENT_SHARD_MASK
  }

  function NodeOf(w: bv64): NodeFields {
    NodeFields(w & ARRIVED != 0, w & STOPPED != 0, HomeIn(w), w & SHARDS_MASK)
  }

  /** The bits between the parent's index and the stop bit are never set. */
  predicate NodeWordOk(w: bv64) {
    w & 0x3FFF_0000_0000_0000 == 0
  }

  lemma NodeWordsCompare(a: bv64, b: bv64)
    requires NodeWordOk(a) && NodeWordOk(b)
    ensures a == b <==> NodeOf(a) == NodeOf(b)
  {
  }

  lemma CountShard(w: bv64)
    requires NodeWordOk(w) && NodeOf(w).count != SHARDS_MASK
    ensures NodeOf(w + 1) == NodeOf(w).(count := NodeOf(w).count + 1) && NodeWordOk(w + 1)
  {
  }

  lemma UncountShard(w: bv64)
    requires NodeWordOk(w) && NodeOf(w).count != 0
    ensures NodeOf(w - 1) == NodeOf(w).(count := NodeOf(w).count - 1) && NodeWordOk(w - 1)
  {
  }

  lemma StopNode(w: bv64)
    requires NodeWordOk(w)
    ensures NodeOf(w | STOPPED) == NodeOf(w).(stopped := true) && NodeWordOk(w | STOPPED)
  {
  }

  /** The word that a child's arrival writes over an empty one. */
  function ArrivedAt(w: bv64, index: bv64): bv64 {
    w | ARRIVED | (index << 32) | 1
  }

  /** A child's arrival stores the index of the parent shard, and counts one shard. */
  lemma ArrivalStoresHome(w: bv64, index: bv64)
    requires w & !STOPPED == 0 && index & !PARENT_SHARD_MASK == 0
    ensures NodeWordOk(ArrivedAt(w, index)) && NodeOf(ArrivedAt(w, index)) == NodeFields(true, w & STOPPED != 0, index, 1)
  {
  }

  /** A child's release clears all but the stop bit. */
  lemma ReleaseClears(w: bv64)
    ensures NodeOf(w & STOPPED) == NodeFields(false, w & STOPPED != 0, 0, 0) && NodeWordOk(w & STOPPED)
  {
  }

  datatype NodeOp = Count | Uncount | SetStopped

  function DoNodeOp(w: bv64, op: NodeOp): bv64 {
    match op
    case Count => w + 1
    case Uncount => w - 1
    case SetStopped => w | STOPPED
  }

  function AfterOps(w: bv64, ops: seq<NodeOp>): bv64 {
    if ops == [] then w else DoNodeOp(AfterOps(w, ops[..|ops| - 1]), ops[|ops| - 1])
  }

  /** No operation takes the count out of its range. */
  predicate InRange(w: bv64, ops: seq<NodeOp>) {
    ops == [] ||
    var count := NodeOf(AfterOps(w, ops[..|ops| - 1])).count;
    && InRange(w, ops[..|ops| - 1])
    && (ops[|ops| - 1] == Count ==> count != SHARDS_MASK) && (ops[|ops| - 1] == Uncount ==> count != 0)
  }

  lemma OpKeepsHome(w: bv64, op: NodeOp)
    requires NodeWordOk(w) && (op == Count ==> NodeOf(w).count != SHARDS_MASK) && (op == Uncount ==> NodeOf(w).count != 0)
    ensures NodeWordOk(DoNodeOp(w, op)) && NodeOf(DoNodeOp(w, op)).home == NodeOf(w).home
  {
    hide NodeWordOk, NodeOf;
    match op
    case Count => CountShard(w);
    case Uncount => UncountShard(w);
    case SetStopped => StopNode(w);
  }

  /** The parent shard that a departure leaves is the one that the arrival stored, whatever counting
      and stopping came between. */
  lemma {:induction false} HomeSurvives(w: bv64, index: bv64, ops: seq<NodeOp>)
    requires w & !STOPPED == 0 && index & !PARENT_SHARD_MASK == 0 && InRange(ArrivedAt(w, index), ops)
    ensures NodeWordOk(AfterOps(ArrivedAt(w, index), ops)) && NodeOf(AfterOps(ArrivedAt(w, index), ops)).home == index
  {
    hide NodeWordOk, NodeOf, ArrivedAt, DoNodeOp;
    if ops == [] {
      ArrivalStoresHome(w, index);
    } else {
      HomeSurvives(w, index, ops[..|ops| - 1]);
      OpKeepsHome(AfterOps(ArrivedAt(w, index), ops[..|ops| - 1]), ops[|ops| - 1]);
    }
  }

  /** Any thread index, reduced by the mask of a power of two, is in range. */
  lemma ShardIndexInRange(thread: bv64, shards: bv64)
    requires shards != 0 && shards & (shards - 1) == 0
    ensures thread & (shards - 1) < shards
  {
  }

  // ---- The atomic -----------------------------------------------------------------------------------------

  /** A shard's `state`. */
  class ShardState {
    var bits: bv64

    constructor ()
      ensures ShardOf(bits) == ShardFields(false, false, 0, 0)
    {
      bits := 0;
    }

    method FetchAdd(unit: bv64) returns (previous: bv64)
      requires unit == LOCAL_ONE || unit == KIDS_ONE
      modifies this
      ensures previous == old(bits) && Adds(previous, unit, bits)
    {
      hide Adds;
      if unit == LOCAL_ONE { AddLocal(bits); } else { AddKid(bits); }
      previous := bits;
      bits := bits + unit;
    }

    method FetchSub(unit: bv64) returns (previous: bv64)
      requires unit == LOCAL_ONE || unit == KIDS_ONE
      modifies this
      ensures previous == old(bits) && Subtracts(previous, unit, bits)
    {
      hide Subtracts;
      if unit == LOCAL_ONE { SubtractLocal(bits); } else { SubtractKid(bits); }
      previous := bits;
      bits := bits - unit;
    }

    method FetchOrStopped() returns (previous: ShardFields)
      modifies this
      ensures previous == old(ShardOf(bits)) && ShardOf(bits) == previous.(stopped := true)
    {
      previous := ShardOf(bits);
      bits := bits | STOPPED;
    }

    method CompareExchange(expected: bv64, desired: bv64) returns (won: bool, actual: ShardFields)
      modifies this
      ensures actual == old(ShardOf(bits)) && won == (actual == ShardOf(expected))
      ensures ShardOf(bits) == if won then ShardOf(desired) else actual
    {
      hide ShardOf;
      ShardWordsCompare(bits, expected);
      actual := ShardOf(bits);
      won := bits == expected;
      if won { bits := desired; }
    }
  }
}
