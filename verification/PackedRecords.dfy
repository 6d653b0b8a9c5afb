/** The records that packed `u64` words stand for: with numbers for counts, each operation of the
    protocol on a word does to the word's record what the protocol says. */
module PackedRecords {
  import opened Memory
  import opened PackedWords
  import opened Numerals

  /** The record that a shard's word stands for, with numbers for counts. */
  function ShardRecord(w: bv64): ShardWord {
    ShardWord(ShardOf(w).arrived, ShardOf(w).stopped, Number(ShardOf(w).kids), Number(ShardOf(w).local))
  }

  function NodeRecord(w: bv64): NodeWord {
    NodeWord(NodeOf(w).arrived, NodeOf(w).stopped, Number(NodeOf(w).home), Number(NodeOf(w).count))
  }

  const KIDS_LIMIT := 0x4000_0000
  const HOME_LIMIT := 0x1_0000

  predicate ShardInRange(w: ShardWord) {
    w.kids < KIDS_LIMIT && w.local < LIMIT
  }

  /** Additions to and subtractions from a word. */
  function AddGuard(w: bv64): bv64 { w + LOCAL_ONE }

  function AddChild(w: bv64): bv64 { w + KIDS_ONE }

  function SubtractGuard(w: bv64): bv64 { w - LOCAL_ONE }

  function SubtractChild(w: bv64): bv64 { w - KIDS_ONE }

  function AddUnit(w: bv64, unit: Unit): bv64 {
    if unit == Local then AddGuard(w) else AddChild(w)
  }

  function SubtractUnit(w: bv64, unit: Unit): bv64 {
    if unit == Local then SubtractGuard(w) else SubtractChild(w)
  }

  lemma FieldsSmall(w: bv64)
    ensures Small(ShardOf(w).kids) && Small(ShardOf(w).local)
    ensures Small(NodeOf(w).home) && Small(NodeOf(w).count)
  {
  }

  lemma GuardInc(w: bv64)
    requires ShardOf(w).local != 0xFFFF_FFFF
    ensures ShardOf(AddGuard(w)) == ShardOf(w).(local := Inc(ShardOf(w).local))
  {
  }

  lemma GuardDec(w: bv64)
    requires ShardOf(w).local != 0
    ensures ShardOf(SubtractGuard(w)) == ShardOf(w).(local := Dec(ShardOf(w).local))
  {
  }

  lemma ChildInc(w: bv64)
    requires ShardOf(w).kids != 0x3FFF_FFFF
    ensures ShardOf(AddChild(w)) == ShardOf(w).(kids := Inc(ShardOf(w).kids))
  {
  }

  lemma ChildDec(w: bv64)
    requires ShardOf(w).kids != 0
    ensures ShardOf(SubtractChild(w)) == ShardOf(w).(kids := Dec(ShardOf(w).kids))
  {
  }

  lemma ThirtyOnes()
    ensures Number(0x3FFF_FFFF) == 0x3FFF_FFFF
  {
    hide Value;
    ValueOfThirtyOnes();
  }

  /** Adding a unit to a word adds it to the record, in range. */
  lemma AddRecord(w: bv64, unit: Unit)
    requires ShardInRange(Plus(ShardRecord(w), unit))
    ensures ShardRecord(AddUnit(w, unit)) == Plus(ShardRecord(w), unit)
  {
    hide ShardOf, Number, Inc, Small, AddGuard, AddChild;
    FieldsSmall(w);
    if unit == Local {
      NumberInc(ShardOf(w).local);
      GuardInc(w);
    } else {
      ThirtyOnes();
      NumberInc(ShardOf(w).kids);
      ChildInc(w);
    }
  }

  lemma SubtractRecord(w: bv64, unit: Unit)
    requires if unit == Local then ShardRecord(w).local > 0 else ShardRecord(w).kids > 0
    ensures ShardRecord(SubtractUnit(w, unit)) == Minus(ShardRecord(w), unit)
  {
    hide ShardOf, Number, Dec, Small, SubtractGuard, SubtractChild;
    FieldsSmall(w);
    if unit == Local {
      NumberDec(ShardOf(w).local);
      GuardDec(w);
    } else {
      NumberDec(ShardOf(w).kids);
      ChildDec(w);
    }
  }

  lemma StopRecord(w: bv64)
    ensures ShardRecord(w | STOPPED) == ShardRecord(w).(stopped := true)
  {
    hide ShardOf, Number;
    StopShard(w);
  }

  /** Comparing words is comparing records. */
  lemma RecordsCompare(a: bv64, b: bv64)
    ensures a == b <==> ShardRecord(a) == ShardRecord(b)
  {
    hide ShardOf, Number, Small;
    FieldsSmall(a);
    FieldsSmall(b);
    NumberInjective(ShardOf(a).kids, ShardOf(b).kids);
    NumberInjective(ShardOf(a).local, ShardOf(b).local);
    ShardWordsCompare(a, b);
  }

  lemma FlushFields()
    ensures ShardOf(ARRIVED | STOPPED) == ShardFields(true, true, 0, 0) && ShardOf(STOPPED) == ShardFields(false, true, 0, 0)
    ensures ShardOf(0) == ShardFields(false, false, 0, 0)
  {
  }

  lemma FlushRecords()
    ensures ShardRecord(ARRIVED | STOPPED) == FLUSHABLE && ShardRecord(STOPPED) == FLUSHABLE.(arrived := false) && ShardRecord(0) == EMPTY_SHARD
  {
    hide ShardOf, Number;
    NumberZero();
    FlushFields();
  }

  lemma EmptyBits(w: bv64)
    requires !ShardOf(w).arrived && ShardOf(w).kids == 0 && ShardOf(w).local == 0
    ensures w & !STOPPED == 0
  {
  }

  /** The word of a first arrival. */
  function FirstUnit(w: bv64, unit: Unit): bv64 {
    if unit == Local then w | ARRIVED | LOCAL_ONE else w | ARRIVED | KIDS_ONE
  }

  lemma FirstFields(w: bv64, unit: Unit)
    requires w & !STOPPED == 0
    ensures ShardOf(FirstUnit(w, unit)) ==
              if unit == Local then ShardFields(true, ShardOf(w).stopped, 0, 1) else ShardFields(true, ShardOf(w).stopped, 1, 0)
  {
  }

  lemma OneIsInc()
    ensures Inc(0) == 1
  {
  }

  lemma NumberOne()
    ensures Number(1) == 1
  {
    hide Value;
    NumberZero();
    OneIsInc();
    NumberInc(0);
  }

  lemma FirstRecord(w: bv64, unit: Unit)
    requires !ShardRecord(w).arrived && ShardRecord(w).kids == 0 && ShardRecord(w).local == 0
    ensures ShardRecord(FirstUnit(w, unit)) == Plus(ShardRecord(w).(arrived := true), unit)
  {
    hide ShardOf, Number, Small, FirstUnit;
    FieldsSmall(w);
    NumberZero();
    NumberOne();
    NumberInjective(ShardOf(w).kids, 0);
    NumberInjective(ShardOf(w).local, 0);
    EmptyBits(w);
    FirstFields(w, unit);
  }

  // ---- A node's word ----------------------------------------------------------------------------------------

  function AddShard(w: bv64): bv64 { w + 1 }

  function SubtractShard(w: bv64): bv64 { w - 1 }

  lemma ShardInc(w: bv64)
    requires NodeWordOk(w) && NodeOf(w).count != 0xFFFF_FFFF
    ensures NodeOf(AddShard(w)) == NodeOf(w).(count := Inc(NodeOf(w).count)) && NodeWordOk(AddShard(w))
  {
  }

  lemma ShardDec(w: bv64)
    requires NodeWordOk(w) && NodeOf(w).count != 0
    ensures NodeOf(SubtractShard(w)) == NodeOf(w).(count := Dec(NodeOf(w).count)) && NodeWordOk(SubtractShard(w))
  {
  }

  lemma CountRecord(w: bv64)
    requires NodeWordOk(w) && NodeRecord(w).count + 1 < LIMIT
    ensures NodeRecord(AddShard(w)) == NodeRecord(w).(count := NodeRecord(w).count + 1) && NodeWordOk(AddShard(w))
  {
    hide NodeOf, NodeWordOk, Number, Inc, Small, AddShard;
    FieldsSmall(w);
    NumberInc(NodeOf(w).count);
    ShardInc(w);
  }

  lemma UncountRecord(w: bv64)
    requires NodeWordOk(w) && NodeRecord(w).count > 0
    ensures NodeRecord(SubtractShard(w)) == NodeRecord(w).(count := NodeRecord(w).count - 1) && NodeWordOk(SubtractShard(w))
  {
    hide NodeOf, NodeWordOk, Number, Dec, Small, SubtractShard;
    FieldsSmall(w);
    NumberDec(NodeOf(w).count);
    ShardDec(w);
  }

  lemma StopNodeRecord(w: bv64)
    requires NodeWordOk(w)
    ensures NodeRecord(w | STOPPED) == NodeRecord(w).(stopped := true) && NodeWordOk(w | STOPPED)
  {
    hide NodeOf, NodeWordOk, Number;
    StopNode(w);
  }

  lemma NodeRecordsCompare(a: bv64, b: bv64)
    requires NodeWordOk(a) && NodeWordOk(b)
    ensures a == b <==> NodeRecord(a) == NodeRecord(b)
  {
    hide NodeOf, NodeWordOk, Number, Small;
    FieldsSmall(a);
    FieldsSmall(b);
    NumberInjective(NodeOf(a).home, NodeOf(b).home);
    NumberInjective(NodeOf(a).count, NodeOf(b).count);
    NodeWordsCompare(a, b);
  }

  lemma EmptyNodeBits(w: bv64)
    requires NodeWordOk(w) && !NodeOf(w).arrived && NodeOf(w).home == 0 && NodeOf(w).count == 0
    ensures w & !STOPPED == 0
  {
  }

  lemma ArrivedFields(w: bv64, index: bv64)
    requires w & !STOPPED == 0 && index & !0xFFFF == 0
    ensures NodeOf(ArrivedAt(w, index)) == NodeFields(true, NodeOf(w).stopped, index, 1) && NodeWordOk(ArrivedAt(w, index))
  {
    hide NodeWordOk;
    ArrivalStoresHome(w, index);
  }

  lemma ArriveRecord(w: bv64, index: nat)
    requires NodeWordOk(w) && !NodeRecord(w).arrived && NodeRecord(w).home == 0 && NodeRecord(w).count == 0 && index < HOME_LIMIT
    ensures NodeRecord(ArrivedAt(w, Numeral(index))) == NodeWord(true, NodeRecord(w).stopped, index, 1)
    ensures NodeWordOk(ArrivedAt(w, Numeral(index)))
  {
    hide NodeOf, NodeWordOk, Number, Small, Numeral, ArrivedAt;
    FieldsSmall(w);
    NumberZero();
    NumberOne();
    NumberInjective(NodeOf(w).home, 0);
    NumberInjective(NodeOf(w).count, 0);
    NumeralNumber(index);
    SixteenBits(Numeral(index));
    EmptyNodeBits(w);
    ArrivedFields(w, Numeral(index));
  }

  lemma ReleaseFields(w: bv64)
    ensures NodeOf(w & STOPPED) == NodeFields(false, NodeOf(w).stopped, 0, 0) && NodeWordOk(w & STOPPED)
  {
    hide NodeWordOk;
    ReleaseClears(w);
  }

  lemma ReleaseRecord(w: bv64)
    ensures NodeRecord(w & STOPPED) == EMPTY_NODE.(stopped := NodeRecord(w).stopped) && NodeWordOk(w & STOPPED)
  {
    hide NodeOf, NodeWordOk, Number;
    NumberZero();
    ReleaseFields(w);
  }

  // ---- What calls test --------------------------------------------------------------------------------------

  const FLUSHABLE_BITS: bv64 := ARRIVED | STOPPED

  function LatchBits(w: bv64): bv64 { w | STOPPED }

  function Released(w: bv64): bv64 { w & STOPPED }

  function HasArrived(w: bv64): bool { w & ARRIVED != 0 }

  function HasStopped(w: bv64): bool { w & STOPPED != 0 }

  /** What a stop, or a destructor, tests on the word that it found. */
  function WasFlushable(w: bv64): bool { w & !STOPPED == ARRIVED }

  function CountsNone(w: bv64): bool { w & SHARDS_MASK == 0 }

  lemma ArrivedRecord(w: bv64)
    ensures HasArrived(w) == ShardRecord(w).arrived == NodeRecord(w).arrived
  {
    hide Number;
  }

  lemma LatchRecord(w: bv64)
    ensures ShardRecord(LatchBits(w)) == ShardRecord(w).(stopped := true)
    ensures NodeWordOk(w) ==> NodeRecord(LatchBits(w)) == NodeRecord(w).(stopped := true) && NodeWordOk(LatchBits(w))
  {
    hide ShardRecord, NodeRecord, NodeWordOk;
    StopRecord(w);
    if NodeWordOk(w) { StopNodeRecord(w); }
  }

  lemma ReleasedRecord(w: bv64)
    ensures NodeRecord(Released(w)) == EMPTY_NODE.(stopped := NodeRecord(w).stopped) && NodeWordOk(Released(w))
  {
    hide NodeRecord, NodeWordOk;
    ReleaseRecord(w);
  }

  lemma FlushableRecord(w: bv64)
    ensures w == FLUSHABLE_BITS <==> ShardRecord(w) == FLUSHABLE
    ensures ShardRecord(STOPPED) == FLUSHABLE.(arrived := false)
  {
    hide ShardRecord;
    FlushRecords();
    RecordsCompare(w, FLUSHABLE_BITS);
  }

  lemma EmptyRecords()
    ensures ShardRecord(0) == EMPTY_SHARD && NodeRecord(0) == EMPTY_NODE && NodeWordOk(0)
  {
    hide Number;
    NumberZero();
  }

  lemma FlushableTest(w: bv64)
    ensures WasFlushable(w) <==> ShardOf(w).(stopped := true) == ShardFields(true, true, 0, 0)
  {
    hide ShardOf;
    ComparedWords(w);
  }

  lemma FieldTests(w: bv64)
    ensures HasStopped(w) == ShardOf(w).stopped == NodeOf(w).stopped && CountsNone(w) == (NodeOf(w).count == 0)
  {
  }

  /** The tests that calls make on bits, and those of the protocol on records. */
  lemma TestsAgree(w: bv64)
    ensures WasFlushable(w) <==> ShardRecord(w).(stopped := true) == FLUSHABLE
    ensures HasStopped(w) == ShardRecord(w).stopped == NodeRecord(w).stopped
    ensures CountsNone(w) <==> NodeRecord(w).count == 0
  {
    hide ShardOf, NodeOf, Number, Small, WasFlushable, HasStopped, CountsNone;
    FieldsSmall(w);
    FlushableTest(w);
    FieldTests(w);
    NumberZero();
    NumberInjective(ShardOf(w).kids, 0);
    NumberInjective(ShardOf(w).local, 0);
    NumberInjective(NodeOf(w).count, 0);
  }
}
