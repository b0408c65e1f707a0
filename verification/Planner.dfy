/** The execution planner of one table: from the sorted accesses it counts the writes of the
    same record on either side of each access, classifies the access, numbers the version
    writes, and scatters each access's location into the plan of its transaction. */
module Planner {
  import opened Accesses
  import opened Machine
  import Sort = StableSort

  /** A packed access, unpacked. */
  datatype Op = Op(record: nat, txn: nat, write: bool, offset: nat)

  datatype OperationType =
    | VersionRead | VersionWrite | RecordARead | RecordBRead | RecordAWrite | RecordBWrite

  const LOC_RECORD_A: nat := 0xFFFF_FFFF
  const LOC_RECORD_B: nat := 0xFFFF_FFFE

  /** What the executor makes of a plan word: it compares it with the two sentinels. */
  function DecodeLoc(word: nat): Loc {
    if word == LOC_RECORD_A then RecordA
    else if word == LOC_RECORD_B then RecordB
    else VersionSlot(word)
  }

  // ---------------------------------------------------------------- the scans, as functions

  function WriteBit(op: Op): nat { if op.write then 1 else 0 }

  /** Exclusive sum by key from the left: writes of the same record before i. */
  function WritesBefore(s: seq<Op>, i: nat): nat
    requires i < |s|
  {
    if i == 0 || s[i - 1].record != s[i].record then 0 else WritesBefore(s, i - 1) + WriteBit(s[i - 1])
  }

  /** The same scan over the reversed arrays: writes of the same record after i. */
  function WritesAfter(s: seq<Op>, i: nat): nat
    requires i < |s|
    decreases |s| - i
  {
    if i == |s| - 1 || s[i + 1].record != s[i].record then 0 else WritesAfter(s, i + 1) + WriteBit(s[i + 1])
  }

  function Classify(op: Op, before: nat, after: nat): OperationType {
    if op.write then
      if after == 0 then RecordBWrite else VersionWrite
    else if before == 0 then RecordARead
    else if after == 0 then RecordBRead
    else VersionRead
  }

  function TypeAt(s: seq<Op>, i: nat): OperationType
    requires i < |s|
  {
    Classify(s[i], WritesBefore(s, i), WritesAfter(s, i))
  }

  /** Version writes among the first i accesses, of all records. */
  function VersionWrites(s: seq<Op>, i: nat): (v: nat)
    requires i <= |s|
    ensures v <= i
  {
    if i == 0 then 0 else VersionWrites(s, i - 1) + (if TypeAt(s, i - 1).VersionWrite? then 1 else 0)
  }

  /** The 32-bit location word: the subtraction wraps around at zero. */
  function LocationWord(t: OperationType, versionWritesBefore: nat): nat {
    match t
    case RecordARead | RecordAWrite => LOC_RECORD_A
    case RecordBRead | RecordBWrite => LOC_RECORD_B
    case VersionRead => (versionWritesBefore + WORD - 1) % WORD
    case VersionWrite => versionWritesBefore
  }

  function WordAt(s: seq<Op>, i: nat): nat
    requires i < |s|
  {
    LocationWord(TypeAt(s, i), VersionWrites(s, i))
  }

  // -------------------------------------------------------------- what the scans mean

  ghost predicate Grouped(s: seq<Op>) {
    forall i, j | 0 <= i < j < |s| :: s[i].record <= s[j].record
  }

  lemma {:induction false} NoWriteBefore(s: seq<Op>, i: nat)
    requires Grouped(s) && i < |s|
    ensures WritesBefore(s, i) == 0 <==> forall j | 0 <= j < i && s[j].record == s[i].record :: !s[j].write
  {
    if i > 0 && s[i - 1].record == s[i].record {
      NoWriteBefore(s, i - 1);
    }
  }

  lemma {:induction false} NoWriteAfter(s: seq<Op>, i: nat)
    requires Grouped(s) && i < |s|
    ensures WritesAfter(s, i) == 0 <==> forall j | i < j < |s| && s[j].record == s[i].record :: !s[j].write
    decreases |s| - i
  {
    if i < |s| - 1 && s[i + 1].record == s[i].record {
      NoWriteAfter(s, i + 1);
    }
  }

  /** Between a write and a later access of its record with no write in between, nothing is
      counted: neither writes of the record nor version writes of any record. */
  lemma {:induction false} QuietStretch(s: seq<Op>, w: nat, i: nat)
    requires Grouped(s) && w < i < |s|
    requires s[w].record == s[i].record && !s[i].write
    requires forall j | w < j < i && s[j].record == s[i].record :: !s[j].write
    ensures WritesAfter(s, w) == WritesAfter(s, i)
    ensures VersionWrites(s, i) == VersionWrites(s, w + 1)
    decreases i - w
  {
    assert s[w].record <= s[w + 1].record <= s[i].record;
    if w + 1 < i {
      QuietStretch(s, w + 1, i);
      assert !TypeAt(s, w + 1).VersionWrite?;
    }
  }

  lemma {:induction false} VersionWritesMonotone(s: seq<Op>, i: nat, j: nat)
    requires i <= j <= |s|
    ensures VersionWrites(s, i) <= VersionWrites(s, j)
    ensures i < j && TypeAt(s, i).VersionWrite? ==> VersionWrites(s, i) < VersionWrites(s, j)
    decreases j - i
  {
    if i < j {
      VersionWritesMonotone(s, i + 1, j);
    }
  }

  /** The last access of all is never a version write, so the slots stay below the sentinels. */
  lemma {:induction false} SlotsBelowSentinels(s: seq<Op>, i: nat)
    requires Grouped(s) && i < |s| && TypeAt(s, i).VersionWrite?
    ensures VersionWrites(s, i) <= |s| - 2
  {
    assert i != |s| - 1;
    VersionWritesMonotone(s, i, |s| - 1);
    assert VersionWrites(s, i) < VersionWrites(s, |s| - 1);
  }

  // --------------------------------------------------------------- the plan of a table

  function AccessOf(op: Op): Access<nat> {
    Access(op.record, op.txn, op.write)
  }

  function AccessesOf(s: seq<Op>): (a: seq<Access<nat>>)
    ensures |a| == |s| && forall i | 0 <= i < |s| :: a[i] == AccessOf(s[i])
  {
    seq(|s|, i requires 0 <= i < |s| => AccessOf(s[i]))
  }

  function Words(s: seq<Op>): (w: seq<nat>)
    ensures |w| == |s| && forall i | 0 <= i < |s| :: w[i] == WordAt(s, i)
  {
    seq(|s|, i requires 0 <= i < |s| => WordAt(s, i))
  }

  function SortedLocs(s: seq<Op>): (l: seq<Loc>)
    ensures |l| == |s| && forall i | 0 <= i < |s| :: l[i] == DecodeLoc(WordAt(s, i))
  {
    seq(|s|, i requires 0 <= i < |s| => DecodeLoc(WordAt(s, i)))
  }

  function OneTable(record: nat): nat { 0 }

  /** A read after a write w, with no other write of the record in between, shares w's location. */
  lemma {:induction false} ReadSharesLocation(s: seq<Op>, w: nat, i: nat)
    requires Grouped(s) && |s| < WORD && w < i < |s|
    requires s[w].record == s[i].record && s[w].write && !s[i].write
    requires forall j | w < j < i && s[j].record == s[i].record :: !s[j].write
    ensures WordAt(s, i) == WordAt(s, w)
  {
    QuietStretch(s, w, i);
    NoWriteBefore(s, i);
    assert VersionWrites(s, w + 1) == VersionWrites(s, w) + (if TypeAt(s, w).VersionWrite? then 1 else 0);
    hide WritesBefore, WritesAfter, VersionWrites;
  }

  lemma {:induction false} ReadLocation(s: seq<Op>, i: nat)
    requires Grouped(s) && |s| < WORD && i < |s| && !s[i].write
    ensures var w := LastWrite(AccessesOf(s), s[i].record, i);
            DecodeLoc(WordAt(s, i)) == if w < 0 then RecordA else DecodeLoc(WordAt(s, w))
  {
    var a := AccessesOf(s);
    var w := LastWrite(a, s[i].record, i);
    forall j | w < j < i && 0 <= j && s[j].record == s[i].record ensures !s[j].write {
      assert !WritesAt(a, s[i].record, j);
    }
    if w >= 0 {
      assert WritesAt(a, s[i].record, w);
      ReadSharesLocation(s, w, i);
    } else {
      NoWriteBefore(s, i);
    }
  }

  lemma {:induction false} WriteLocation(s: seq<Op>, i: nat)
    requires Grouped(s) && |s| < WORD && i < |s| && s[i].write
    ensures var l := DecodeLoc(WordAt(s, i));
            l != RecordA && (l == RecordB <==> NoLaterWrite(AccessesOf(s), i))
    ensures TypeAt(s, i).VersionWrite? ==> DecodeLoc(WordAt(s, i)) == VersionSlot(VersionWrites(s, i))
  {
    var a := AccessesOf(s);
    NoWriteAfter(s, i);
    if TypeAt(s, i).VersionWrite? {
      SlotsBelowSentinels(s, i);
      var j :| i < j < |s| && s[j].record == s[i].record && s[j].write;
      assert WritesAt(a, a[i].key, j);
    }
  }

  /** The locations that the planner computes over the sorted accesses are a correct plan. */
  lemma {:induction false} SortedPlanOk(s: seq<Op>)
    requires Grouped(s) && |s| < WORD
    ensures PlanOk(AccessesOf(s), SortedLocs(s), OneTable)
  {
    forall i | 0 <= i < |s| && !s[i].write { ReadLocation(s, i); }
    forall i | 0 <= i < |s| && s[i].write { WriteLocation(s, i); }
    forall i, j | 0 <= i < j < |s| && s[i].write && s[j].write && SortedLocs(s)[i].VersionSlot?
      ensures SortedLocs(s)[i] != SortedLocs(s)[j]
    {
      VersionWritesMonotone(s, i, j);
    }
  }

  // --------------------------------------------------------------- the version slots

  /** Every slot below the count belongs to some version write ... */
  lemma {:induction false} SlotUsed(s: seq<Op>, n: nat, v: nat) returns (i: nat)
    requires n <= |s| && v < VersionWrites(s, n)
    ensures i < n && TypeAt(s, i).VersionWrite? && VersionWrites(s, i) == v
  {
    if v < VersionWrites(s, n - 1) {
      i := SlotUsed(s, n - 1, v);
    } else {
      i := n - 1;
    }
  }

  /** ... and to only one: the assigned slots are exactly 0 .. V-1, each of them once. */
  lemma {:induction false} SlotsAreExact(s: seq<Op>, v: nat)
    ensures v < VersionWrites(s, |s|) <==>
            exists i | 0 <= i < |s| :: TypeAt(s, i).VersionWrite? && VersionWrites(s, i) == v
    ensures forall i, j | 0 <= i < j < |s| && TypeAt(s, i).VersionWrite? && TypeAt(s, j).VersionWrite? ::
              VersionWrites(s, i) != VersionWrites(s, j)
  {
    if v < VersionWrites(s, |s|) {
      var i := SlotUsed(s, |s|, v);
    }
    forall i | 0 <= i < |s| && TypeAt(s, i).VersionWrite? ensures VersionWrites(s, i) < VersionWrites(s, |s|) {
      VersionWritesMonotone(s, i, |s|);
    }
    forall i, j | 0 <= i < j < |s| && TypeAt(s, i).VersionWrite? && TypeAt(s, j).VersionWrite?
      ensures VersionWrites(s, i) != VersionWrites(s, j)
    {
      VersionWritesMonotone(s, i, j);
    }
  }

  function Writes(s: seq<Op>, i: nat): nat
    requires i <= |s|
  {
    if i == 0 then 0 else Writes(s, i - 1) + WriteBit(s[i - 1])
  }

  ghost function RecordsWrittenFrom(s: seq<Op>, i: nat): (r: set<nat>)
    requires i <= |s|
  {
    set j | i <= j < |s| && s[j].write :: s[j].record
  }

  lemma {:induction false} OneMoreRecord(s: seq<Op>, i: nat)
    requires Grouped(s) && i < |s|
    ensures |RecordsWrittenFrom(s, i)| ==
            |RecordsWrittenFrom(s, i + 1)| + if s[i].write && WritesAfter(s, i) == 0 then 1 else 0
  {
    hide Grouped, WritesAfter, RecordsWrittenFrom;
    NoWriteAfter(s, i);
    RecordsAt(s, i);
    if s[i].write { OneMoreElement(RecordsWrittenFrom(s, i + 1), s[i].record); }
  }

  lemma RecordsAt(s: seq<Op>, i: nat)
    requires i < |s|
    ensures var rest := RecordsWrittenFrom(s, i + 1);
            && RecordsWrittenFrom(s, i) == (if s[i].write then rest + {s[i].record} else rest)
            && (s[i].record in rest <==> exists j | i < j < |s| && s[j].record == s[i].record :: s[j].write)
  {}

  lemma OneMoreElement(a: set<nat>, x: nat)
    ensures |a + {x}| == |a| + if x in a then 0 else 1
  {
    if x in a { assert a + {x} == a; }
  }

  /** From i on, the records written are as many as the writes that are not version writes. */
  lemma {:induction false} OneLastWritePerRecord(s: seq<Op>, i: nat)
    requires Grouped(s) && i <= |s|
    ensures VersionWrites(s, |s|) - VersionWrites(s, i) ==
            Writes(s, |s|) - Writes(s, i) - |RecordsWrittenFrom(s, i)|
    decreases |s| - i
  {
    if i < |s| {
      hide RecordsWrittenFrom, WritesAfter, Grouped;
      OneLastWritePerRecord(s, i + 1);
      OneMoreRecord(s, i);
    } else {
      assert RecordsWrittenFrom(s, i) == {};
    }
  }

  /** The number of slots is the number of writes less the number of records written. */
  lemma {:induction false} SlotCount(s: seq<Op>)
    requires Grouped(s)
    ensures VersionWrites(s, |s|) == Writes(s, |s|) - |RecordsWrittenFrom(s, 0)|
  {
    OneLastWritePerRecord(s, 0);
  }

  // --------------------------------------------------------------- back to submission order

  function KeysOf(ops: seq<Op>): (keys: seq<nat>)
    ensures |keys| == |ops| && forall j | 0 <= j < |ops| :: keys[j] == ops[j].record
  {
    seq(|ops|, j requires 0 <= j < |ops| => ops[j].record)
  }

  ghost predicate IsSorted(ops: seq<Op>, s: seq<Op>) {
    Sort.IsSort(KeysOf(ops), ops, s)
  }

  lemma {:induction false} SortedIsGrouped(ops: seq<Op>, s: seq<Op>)
    requires IsSorted(ops, s)
    ensures Grouped(s)
  {
    forall i, j | 0 <= i < j < |s| ensures s[i].record <= s[j].record {
      var a := Sort.PosOnto(KeysOf(ops), i);
      var b := Sort.PosOnto(KeysOf(ops), j);
      Sort.PosOrder(KeysOf(ops), a, b);
    }
  }

  /** The location that the submitted access j ends up with. */
  function SubmittedLocs(ops: seq<Op>, s: seq<Op>): (l: seq<Loc>)
    requires |s| == |ops|
    ensures |l| == |ops|
    ensures forall j | 0 <= j < |ops| :: l[j] == DecodeLoc(WordAt(s, Sort.Pos(KeysOf(ops), j)))
  {
    seq(|ops|, j requires 0 <= j < |ops| => DecodeLoc(WordAt(s, Sort.Pos(KeysOf(ops), j))))
  }

  /** The last earlier write of a record is found at the matching sorted position. */
  lemma {:induction false} LastWriteSorted(ops: seq<Op>, s: seq<Op>, j: nat)
    requires IsSorted(ops, s) && j < |ops|
    ensures var keys := KeysOf(ops);
            var w := LastWrite(AccessesOf(ops), ops[j].record, j);
            var w' := LastWrite(AccessesOf(s), ops[j].record, Sort.Pos(keys, j));
            if w < 0 then w' < 0 else w' == Sort.Pos(keys, w)
  {
    hide Sort.Pos;
    var keys, r := KeysOf(ops), ops[j].record;
    var w := LastWrite(AccessesOf(ops), r, j);
    var p := Sort.Pos(keys, j);
    var w' := LastWrite(AccessesOf(s), r, p);
    if w >= 0 {
      Sort.PosOrder(keys, w, j);
      assert WritesAt(AccessesOf(s), r, Sort.Pos(keys, w));
    }
    if w' >= 0 {
      var k := Sort.PosOnto(keys, w');
      Sort.PosOrder(keys, k, j);
      assert WritesAt(AccessesOf(ops), r, k);
      if w >= 0 { Sort.PosOrder(keys, w, k); }
    }
  }

  lemma {:induction false} NoLaterWriteSorted(ops: seq<Op>, s: seq<Op>, j: nat)
    requires IsSorted(ops, s) && j < |ops|
    ensures NoLaterWrite(AccessesOf(ops), j) <==> NoLaterWrite(AccessesOf(s), Sort.Pos(KeysOf(ops), j))
  {
    var keys, a, b := KeysOf(ops), AccessesOf(ops), AccessesOf(s);
    var p := Sort.Pos(keys, j);
    if !NoLaterWrite(a, j) {
      var h :| j < h < |a| && WritesAt(a, a[j].key, h);
      Sort.PosOrder(keys, j, h);
      assert WritesAt(b, b[p].key, Sort.Pos(keys, h));
    }
    if !NoLaterWrite(b, p) {
      var q :| p < q < |b| && WritesAt(b, b[p].key, q);
      var h := Sort.PosOnto(keys, q);
      Sort.PosOrder(keys, j, h);
      assert WritesAt(a, a[j].key, h);
    }
  }

  /** Planner location theorem: for every batch of one table, in the order of submission, each
      read gets the location of the last earlier write of its record, or record A; each record's
      last write, and no other, gets record B; and no two writes share a slot. */
  lemma {:induction false} PlanIsCorrect(ops: seq<Op>, s: seq<Op>)
    requires IsSorted(ops, s) && |ops| < WORD
    ensures PlanOk(AccessesOf(ops), SubmittedLocs(ops, s), OneTable)
  {
    hide Sort.Pos, LastWrite, NoLaterWrite, Grouped, WordAt, DecodeLoc;
    var keys, a, b := KeysOf(ops), AccessesOf(ops), AccessesOf(s);
    var l, m := SubmittedLocs(ops, s), SortedLocs(s);
    SortedIsGrouped(ops, s);
    SortedPlanOk(s);
    forall j | 0 <= j < |ops| && !ops[j].write
      ensures var w := LastWrite(a, a[j].key, j); l[j] == if w < 0 then RecordA else l[w]
    {
      LastWriteSorted(ops, s, j);
      assert !b[Sort.Pos(keys, j)].write;
    }
    forall j | 0 <= j < |ops| && ops[j].write
      ensures l[j] != RecordA && (l[j] == RecordB <==> NoLaterWrite(a, j))
    {
      NoLaterWriteSorted(ops, s, j);
      assert b[Sort.Pos(keys, j)].write;
    }
    forall g, h | 0 <= g < h < |ops| && a[g].write && a[h].write && l[g].VersionSlot?
      ensures l[g] != l[h]
    {
      Sort.PosOrder(keys, g, h);
      assert b[Sort.Pos(keys, g)].write && b[Sort.Pos(keys, h)].write;
    }
  }
}
