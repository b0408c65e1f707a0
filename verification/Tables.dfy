/** All tables together.  Each table has a planner of its own, which sees only the accesses to
    that table, in the order of submission; they all scatter into the same execution plans. */
module Tables {
  import opened Accesses
  import opened Execution
  import opened Planner
  import opened PlannerKernels

  /** idx lists the accesses to table t, in order. */
  ghost predicate IsSlice(ops: seq<Access<Key>>, t: nat, idx: seq<nat>) {
    && (forall i | 0 <= i < |idx| :: idx[i] < |ops| && ops[idx[i]].key.table == t)
    && (forall i, j | 0 <= i < j < |idx| :: idx[i] < idx[j])
    && (forall g: nat | g < |ops| && ops[g].key.table == t :: g in idx)
  }

  ghost predicate SameAccesses(ops: seq<Access<Key>>, t: nat, idx: seq<nat>, acc: seq<Access<nat>>)
    requires IsSlice(ops, t, idx)
  {
    && |acc| == |idx|
    && forall j | 0 <= j < |idx| :: acc[j].key == ops[idx[j]].key.row && acc[j].write == ops[idx[j]].write
  }

  lemma {:induction false} WritesInSlice(ops: seq<Access<Key>>, t: nat, idx: seq<nat>, acc: seq<Access<nat>>, r: nat,
                                         j: nat)
    requires IsSlice(ops, t, idx) && SameAccesses(ops, t, idx, acc) && j < |idx|
    ensures WritesAt(acc, r, j) <==> WritesAt(ops, Key(t, r), idx[j])
  {
    assert ops[idx[j]].key == Key(t, ops[idx[j]].key.row);
  }

  /** Other tables' accesses in between change nothing for a record. */
  lemma {:induction false} LastWriteInSlice(ops: seq<Access<Key>>, t: nat, idx: seq<nat>, acc: seq<Access<nat>>, j: nat)
    requires IsSlice(ops, t, idx) && SameAccesses(ops, t, idx, acc) && j < |idx|
    ensures var w := LastWrite(acc, acc[j].key, j);
            LastWrite(ops, ops[idx[j]].key, idx[j]) == if w < 0 then -1 else idx[w]
  {
    var r := acc[j].key;
    var k := ops[idx[j]].key;
    assert k == Key(t, r);
    var w, w' := LastWrite(acc, r, j), LastWrite(ops, k, idx[j]);
    if w >= 0 { WritesInSlice(ops, t, idx, acc, r, w); }
    if w' >= 0 {
      var v :| 0 <= v < |idx| && idx[v] == w';
      WritesInSlice(ops, t, idx, acc, r, v);
    }
  }

  lemma {:induction false} NoLaterWriteInSlice(ops: seq<Access<Key>>, t: nat, idx: seq<nat>, acc: seq<Access<nat>>,
                                               j: nat)
    requires IsSlice(ops, t, idx) && SameAccesses(ops, t, idx, acc) && j < |idx|
    ensures NoLaterWrite(acc, j) <==> NoLaterWrite(ops, idx[j])
  {
    var r := acc[j].key;
    var k := ops[idx[j]].key;
    assert k == Key(t, r);
    if h: nat :| j < h < |acc| && WritesAt(acc, r, h) {
      WritesInSlice(ops, t, idx, acc, r, h);
      assert WritesAt(ops, k, idx[h]);
    }
    if g: nat :| idx[j] < g < |ops| && WritesAt(ops, k, g) {
      var v :| 0 <= v < |idx| && idx[v] == g;
      WritesInSlice(ops, t, idx, acc, r, v);
      assert WritesAt(acc, r, v);
    }
  }

  /** The accesses to table t have a correct plan of their own. */
  ghost predicate SlicePlanned(ops: seq<Access<Key>>, loc: seq<Loc>, t: nat)
    requires |loc| == |ops|
  {
    exists idx, acc: seq<Access<nat>>, l: seq<Loc> ::
      && IsSlice(ops, t, idx) && SameAccesses(ops, t, idx, acc) && PlanOk(acc, l, OneTable)
      && forall j: nat | j < |idx| :: l[j] == loc[idx[j]]
  }

  lemma {:induction false} ReadFollows(ops: seq<Access<Key>>, loc: seq<Loc>, g: nat)
    requires |loc| == |ops| && g < |ops| && !ops[g].write && SlicePlanned(ops, loc, ops[g].key.table)
    ensures var w := LastWrite(ops, ops[g].key, g);
            loc[g] == if w < 0 then RecordA else loc[w]
  {
    hide LastWrite;
    var t := ops[g].key.table;
    var idx, acc: seq<Access<nat>>, l: seq<Loc> :| IsSlice(ops, t, idx) && SameAccesses(ops, t, idx, acc)
      && PlanOk(acc, l, OneTable)
                       && forall j: nat | j < |idx| :: l[j] == loc[idx[j]];
    var j :| 0 <= j < |idx| && idx[j] == g;
    LastWriteInSlice(ops, t, idx, acc, j);
    hide IsSlice;
    assert !acc[j].write;
  }

  lemma {:induction false} WriteLocates(ops: seq<Access<Key>>, loc: seq<Loc>, g: nat)
    requires |loc| == |ops| && g < |ops| && ops[g].write && SlicePlanned(ops, loc, ops[g].key.table)
    ensures loc[g] != RecordA && (loc[g] == RecordB <==> NoLaterWrite(ops, g))
  {
    var t := ops[g].key.table;
    var idx, acc: seq<Access<nat>>, l: seq<Loc> :| IsSlice(ops, t, idx) && SameAccesses(ops, t, idx, acc)
      && PlanOk(acc, l, OneTable)
                       && forall j: nat | j < |idx| :: l[j] == loc[idx[j]];
    var j :| 0 <= j < |idx| && idx[j] == g;
    NoLaterWriteInSlice(ops, t, idx, acc, j);
    hide IsSlice, NoLaterWrite;
    assert acc[j].write;
  }

  lemma {:induction false} SlotsDiffer(ops: seq<Access<Key>>, loc: seq<Loc>, g: nat, h: nat)
    requires |loc| == |ops| && g < h < |ops| && ops[g].write && ops[h].write
    requires ops[g].key.table == ops[h].key.table && SlicePlanned(ops, loc, ops[g].key.table)
    ensures loc[g].VersionSlot? ==> loc[g] != loc[h]
  {
    var t := ops[g].key.table;
    var idx, acc, l := PlanOfSlice(ops, loc, t);
    hide PlanOk, IsSlice, SameAccesses, SlicePlanned;
    var i := PlaceInSlice(ops, t, idx, acc, g);
    var j := PlaceInSlice(ops, t, idx, acc, h);
    if j <= i { SliceIncreases(ops, t, idx, j, i); }
    SlotsDifferInPlan(acc, l, i, j);
  }

  lemma PlanOfSlice(ops: seq<Access<Key>>, loc: seq<Loc>, t: nat)
    returns (idx: seq<nat>, acc: seq<Access<nat>>, l: seq<Loc>)
    requires |loc| == |ops| && SlicePlanned(ops, loc, t)
    ensures IsSlice(ops, t, idx) && SameAccesses(ops, t, idx, acc) && PlanOk(acc, l, OneTable)
    ensures |l| == |acc| == |idx| && forall j: nat | j < |idx| :: idx[j] < |loc| && l[j] == loc[idx[j]]
  {
    hide LastWrite, NoLaterWrite, LastWritesGoToB, ReadsFollowWrites, SlotsDistinct;
    idx, acc, l :| IsSlice(ops, t, idx) && SameAccesses(ops, t, idx, acc) && PlanOk(acc, l, OneTable)
                   && forall j: nat | j < |idx| :: l[j] == loc[idx[j]];
  }

  lemma PlaceInSlice(ops: seq<Access<Key>>, t: nat, idx: seq<nat>, acc: seq<Access<nat>>, g: nat) returns (j: nat)
    requires IsSlice(ops, t, idx) && SameAccesses(ops, t, idx, acc) && g < |ops| && ops[g].key.table == t
    ensures j < |idx| == |acc| && idx[j] == g && acc[j].write == ops[g].write
  {
    j :| j < |idx| && idx[j] == g;
  }

  lemma SliceIncreases(ops: seq<Access<Key>>, t: nat, idx: seq<nat>, i: nat, j: nat)
    requires IsSlice(ops, t, idx) && i <= j < |idx|
    ensures idx[i] <= idx[j]
  {}

  lemma SlotsDifferInPlan(acc: seq<Access<nat>>, l: seq<Loc>, i: nat, j: nat)
    requires PlanOk(acc, l, OneTable) && i < j < |acc| && acc[i].write && acc[j].write
    ensures |l| == |acc| && (l[i].VersionSlot? ==> l[i] != l[j])
  {
    hide LastWritesGoToB, ReadsFollowWrites;
  }

  /** Correct plans of the single tables make a correct plan of the whole batch. */
  lemma {:induction false} SlicesCompose(ops: seq<Access<Key>>, loc: seq<Loc>)
    requires |loc| == |ops| && forall t: nat :: SlicePlanned(ops, loc, t)
    ensures PlanOk(ops, loc, TableOf)
  {
    hide SlicePlanned, NoLaterWrite, LastWrite;
    forall g: nat | g < |ops| && !ops[g].write { ReadFollows(ops, loc, g); }
    forall g: nat | g < |ops| && ops[g].write { WriteLocates(ops, loc, g); }
    forall g: nat, h: nat | g < h < |ops| && ops[g].write && ops[h].write && TableOf(ops[g].key) == TableOf(ops[h].key)
      ensures loc[g].VersionSlot? ==> loc[g] != loc[h]
    {
      SlotsDiffer(ops, loc, g, h);
    }
  }

  // ------------------------------------------------------------------- plan words

  /** A planner of another table, scattering into other words, leaves a table's plan alone. */
  lemma {:induction false} OtherPlannersKeepPlan(base: seq<nat>, ops: seq<Op>, other: seq<Op>, was: seq<nat>,
                                                 now: seq<nat>)
    requires |was| == |now| && Addressable(base, ops, |now|) && Addressable(base, other, |now|)
    requires forall i: nat, j: nat | i < |ops| && j < |other| :: Address(base, ops[i]) != Address(base, other[j])
    requires HoldsPlan(base, ops, was) && KeepsOtherWords(base, other, was, now)
    ensures HoldsPlan(base, ops, now)
  {
    var locs :| PlanOk(AccessesOf(ops), locs, OneTable)
                && forall j: nat | j < |ops| :: DecodeLoc(was[Address(base, ops[j])]) == locs[j];
    forall j: nat | j < |ops| ensures now[Address(base, ops[j])] == was[Address(base, ops[j])] {}
  }

  /** The batch that table t's planner got: the accesses to the table in order, each with the
      plan word that its transaction will look at. */
  ghost predicate BatchOf(base: seq<nat>, ops: seq<Access<Key>>, word: seq<nat>, t: nat, idx: seq<nat>, batch: seq<Op>)
    requires |word| == |ops| && IsSlice(ops, t, idx)
  {
    && |batch| == |idx|
    && (forall j | 0 <= j < |idx| :: batch[j].txn < |base|)
    && forall j | 0 <= j < |idx| ::
         && batch[j].record == ops[idx[j]].key.row
         && batch[j].write == ops[idx[j]].write
         && Address(base, batch[j]) == word[idx[j]]
  }

  ghost predicate TablePlanned(base: seq<nat>, plan: seq<nat>, ops: seq<Access<Key>>, word: seq<nat>, t: nat)
    requires |word| == |ops|
  {
    exists idx, batch ::
      && IsSlice(ops, t, idx) && BatchOf(base, ops, word, t, idx, batch)
      && Addressable(base, batch, |plan|) && HoldsPlan(base, batch, plan)
  }

  /** The locations that the executing transactions find in their plans. */
  function PlannedLocs(plan: seq<nat>, word: seq<nat>): (l: seq<Loc>)
    requires forall g | 0 <= g < |word| :: word[g] < |plan|
    ensures |l| == |word| && forall g | 0 <= g < |word| :: l[g] == DecodeLoc(plan[word[g]])
  {
    seq(|word|, g requires 0 <= g < |word| => DecodeLoc(plan[word[g]]))
  }

  lemma {:induction false} PlannedSlice(base: seq<nat>, plan: seq<nat>, ops: seq<Access<Key>>, word: seq<nat>, t: nat)
    requires |word| == |ops| && forall g | 0 <= g < |word| :: word[g] < |plan|
    requires TablePlanned(base, plan, ops, word, t)
    ensures SlicePlanned(ops, PlannedLocs(plan, word), t)
  {
    hide PlanOk, DecodeLoc, Address, IsSlice, Addressable, HoldsPlan, BatchOf, SameAccesses;
    var idx, batch :| IsSlice(ops, t, idx) && BatchOf(base, ops, word, t, idx, batch)
                      && Addressable(base, batch, |plan|) && HoldsPlan(base, batch, plan);
    var locs := PlanOfBatch(base, batch, plan);
    BatchIsSlice(base, ops, word, t, idx, batch);
    forall j: nat | j < |idx| ensures idx[j] < |ops| && locs[j] == PlannedLocs(plan, word)[idx[j]] {
      SliceWord(base, ops, word, t, idx, batch, j);
    }
  }

  lemma PlanOfBatch(base: seq<nat>, batch: seq<Op>, plan: seq<nat>) returns (locs: seq<Loc>)
    requires Addressable(base, batch, |plan|) && HoldsPlan(base, batch, plan)
    ensures |locs| == |batch| && PlanOk(AccessesOf(batch), locs, OneTable)
    ensures forall j: nat | j < |batch| ::
              && batch[j].txn < |base| && Address(base, batch[j]) < |plan|
              && DecodeLoc(plan[Address(base, batch[j])]) == locs[j]
  {
    locs :| PlanOk(AccessesOf(batch), locs, OneTable)
            && forall j: nat | j < |batch| :: DecodeLoc(plan[Address(base, batch[j])]) == locs[j];
    hide ReadsFollowWrites, LastWritesGoToB, SlotsDistinct;
  }

  lemma BatchIsSlice(base: seq<nat>, ops: seq<Access<Key>>, word: seq<nat>, t: nat, idx: seq<nat>, batch: seq<Op>)
    requires |word| == |ops| && IsSlice(ops, t, idx) && BatchOf(base, ops, word, t, idx, batch)
    ensures |batch| == |idx| && SameAccesses(ops, t, idx, AccessesOf(batch))
  {}

  lemma SliceWord(base: seq<nat>, ops: seq<Access<Key>>, word: seq<nat>, t: nat, idx: seq<nat>, batch: seq<Op>, j: nat)
    requires |word| == |ops| && IsSlice(ops, t, idx) && BatchOf(base, ops, word, t, idx, batch) && j < |idx|
    ensures |batch| == |idx| && idx[j] < |word| == |ops| && batch[j].txn < |base|
    ensures Address(base, batch[j]) == word[idx[j]]
  {}

  /** If every table's planner has planned its own accesses, every access of the whole batch
      finds a location of a correct plan. */
  lemma {:induction false} PlansCompose(base: seq<nat>, plan: seq<nat>, ops: seq<Access<Key>>, word: seq<nat>)
    requires |word| == |ops| && forall g | 0 <= g < |word| :: word[g] < |plan|
    requires forall t: nat :: TablePlanned(base, plan, ops, word, t)
    ensures PlanOk(ops, PlannedLocs(plan, word), TableOf)
  {
    forall t: nat ensures SlicePlanned(ops, PlannedLocs(plan, word), t) {
      PlannedSlice(base, plan, ops, word, t);
    }
    SlicesCompose(ops, PlannedLocs(plan, word));
  }
}
