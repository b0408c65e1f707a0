/** The planner's buffers and kernels: each kernel fills its buffer in place, and together they
    leave in the execution plan the locations that module Planner proves correct. */
module PlannerKernels {
  import opened Accesses
  import opened Machine
  import opened Planner
  import Sort = StableSort

  /** The plan word of an access: its transaction's first plan word plus the access's offset. */
  function Address(base: seq<nat>, op: Op): nat
    requires op.txn < |base|
  {
    base[op.txn] + op.offset
  }

  ghost predicate Addressable(base: seq<nat>, ops: seq<Op>, size: nat) {
    forall j | 0 <= j < |ops| :: ops[j].txn < |base| && Address(base, ops[j]) < size
  }

  /** No two accesses of the batch are given the same plan word. */
  ghost predicate DistinctWords(base: seq<nat>, ops: seq<Op>, size: nat)
    requires Addressable(base, ops, size)
  {
    forall i, j | 0 <= i < j < |ops| :: Address(base, ops[i]) != Address(base, ops[j])
  }

  /** Every access's plan word holds its entry of words, and every other plan word is as it was. */
  ghost predicate WordsScattered(base: seq<nat>, s: seq<Op>, words: seq<nat>, was: seq<nat>, now: seq<nat>)
    requires |s| == |words| && |was| == |now| && Addressable(base, s, |now|)
  {
    && (forall i: nat | i < |s| :: now[Address(base, s[i])] == words[i])
    && (forall a: nat | a < |now| && (forall i: nat | i < |s| :: Address(base, s[i]) != a) :: now[a] == was[a])
  }

  method ExclusiveSumByKey(ops: array<Op>, output: array<nat>, n: nat)
    requires n <= ops.Length && n <= output.Length
    modifies output
    ensures forall i: nat | i < n :: output[i] == WritesBefore(ops[..n], i)
  {
    for i := 0 to n
      invariant forall j: nat | j < i :: output[j] == WritesBefore(ops[..n], j)
    {
      if i == 0 || ops[i - 1].record != ops[i].record {
        output[i] := 0;
      } else {
        output[i] := output[i - 1] + WriteBit(ops[i - 1]);
      }
    }
  }

  method ReverseExclusiveSumByKey(ops: array<Op>, output: array<nat>, n: nat)
    requires n <= ops.Length && n <= output.Length
    modifies output
    ensures forall i: nat | i < n :: output[i] == WritesAfter(ops[..n], i)
  {
    for i := n downto 0
      invariant forall j: nat | i <= j < n :: output[j] == WritesAfter(ops[..n], j)
    {
      if i == n - 1 || ops[i + 1].record != ops[i].record {
        output[i] := 0;
      } else {
        output[i] := output[i + 1] + WriteBit(ops[i + 1]);
      }
    }
  }

  method CalcOperationType(ops: array<Op>, before: array<nat>, after: array<nat>, output: array<OperationType>, n: nat)
    requires n <= ops.Length && n <= before.Length && n <= after.Length && n <= output.Length
    requires forall i: nat | i < n :: before[i] == WritesBefore(ops[..n], i)
    requires forall i: nat | i < n :: after[i] == WritesAfter(ops[..n], i)
    modifies output
    ensures forall i: nat | i < n :: output[i] == TypeAt(ops[..n], i)
  {
    for i := 0 to n
      invariant forall j: nat | j < i :: output[j] == TypeAt(ops[..n], j)
    {
      output[i] := Classify(ops[i], before[i], after[i]);
    }
  }

  lemma NoneBefore(s: seq<Op>)
    ensures VersionWrites(s, 0) == 0
  {}

  lemma OneMore(s: seq<Op>, i: nat)
    requires i < |s|
    ensures VersionWrites(s, i + 1) == VersionWrites(s, i) + if TypeAt(s, i) == VersionWrite then 1 else 0
  {
    hide TypeAt;
  }

  method ExclusiveSum(ghost s: seq<Op>, types: array<OperationType>, output: array<nat>, n: nat)
    requires n == |s| && n <= types.Length && n <= output.Length
    requires forall i: nat | i < n :: types[i] == TypeAt(s, i)
    modifies output
    ensures forall i: nat | i < n :: output[i] == VersionWrites(s, i)
  {
    hide TypeAt, VersionWrites;
    NoneBefore(s);
    var sum := 0;
    for i := 0 to n
      invariant sum == VersionWrites(s, i)
      invariant forall j: nat | j < i :: output[j] == VersionWrites(s, j)
    {
      output[i] := sum;
      OneMore(s, i);
      if types[i] == VersionWrite { sum := sum + 1; }
    }
  }

  method ScatterRWLocation(ops: array<Op>, types: array<OperationType>, versionWrites: array<nat>,
                           plan: array<nat>, base: seq<nat>, n: nat, ghost words: seq<nat>)
    requires n == |words|
    requires |words| <= ops.Length && |words| <= types.Length && |words| <= versionWrites.Length
    requires plan != versionWrites
    requires forall i: nat | i < |words| :: words[i] == LocationWord(types[i], versionWrites[i])
    requires Addressable(base, ops[..|words|], plan.Length) && DistinctWords(base, ops[..|words|], plan.Length)
    modifies plan
    ensures WordsScattered(base, ops[..|words|], words, old(plan[..]), plan[..])
  {
    ghost var s := ops[..n];
    for i := 0 to n
      invariant forall j: nat | j < i :: plan[Address(base, s[j])] == words[j]
      invariant forall a: nat | a < plan.Length && (forall j: nat | j < i :: Address(base, s[j]) != a) ::
                  plan[a] == old(plan[a])
    {
      assert s[i] == ops[i];
      plan[Address(base, ops[i])] := LocationWord(types[i], versionWrites[i]);
    }
  }

  class GpuTableExecutionPlanner {
    const maxNumOps: nat
    const submittedOps: array<Op>
    const sortedOps: array<Op>
    const writeOpsBefore: array<nat>
    const writeOpsAfter: array<nat>
    const rwOpsType: array<OperationType>
    const tverWriteOpsBefore: array<nat>
    var currNumOps: nat

    ghost predicate Valid()
      reads this
    {
      && submittedOps.Length == sortedOps.Length == rwOpsType.Length == maxNumOps
      && writeOpsBefore.Length == writeOpsAfter.Length == tverWriteOpsBefore.Length == maxNumOps
      && submittedOps != sortedOps
      && writeOpsBefore != writeOpsAfter
      && writeOpsBefore != tverWriteOpsBefore
      && writeOpsAfter != tverWriteOpsBefore
      && currNumOps <= maxNumOps
    }

    constructor (maxNumOps: nat, default: Op)
      ensures Valid() && this.maxNumOps == maxNumOps && currNumOps == 0
      ensures fresh(submittedOps) && fresh(sortedOps) && fresh(rwOpsType)
      ensures fresh(writeOpsBefore) && fresh(writeOpsAfter) && fresh(tverWriteOpsBefore)
    {
      this.maxNumOps := maxNumOps;
      submittedOps := new Op[maxNumOps](_ => default);
      sortedOps := new Op[maxNumOps](_ => default);
      writeOpsBefore := new nat[maxNumOps];
      writeOpsAfter := new nat[maxNumOps];
      rwOpsType := new OperationType[maxNumOps];
      tverWriteOpsBefore := new nat[maxNumOps];
      currNumOps := 0;
    }

    ghost function Submitted(): (ops: seq<Op>)
      requires Valid()
      reads this, submittedOps
      ensures |ops| == currNumOps
    {
      submittedOps[..currNumOps]
    }

    method SortSubmitted()
      requires Valid()
      modifies sortedOps
      ensures Valid() && Submitted() == old(Submitted())
      ensures IsSorted(Submitted(), sortedOps[..currNumOps])
    {
      Sort.SortKeys(KeysOf(submittedOps[..currNumOps]), submittedOps, sortedOps);
    }

    /** The scans, the classification and the scatter, over the sorted accesses. */
    method ScatterSorted(plan: array<nat>, base: seq<nat>)
      requires Valid()
      requires plan != writeOpsBefore && plan != writeOpsAfter && plan != tverWriteOpsBefore
      requires Addressable(base, sortedOps[..currNumOps], plan.Length)
      requires DistinctWords(base, sortedOps[..currNumOps], plan.Length)
      modifies writeOpsBefore, writeOpsAfter, rwOpsType, tverWriteOpsBefore, plan
      ensures WordsScattered(base, sortedOps[..currNumOps], Words(sortedOps[..currNumOps]), old(plan[..]), plan[..])
    {
      var n := currNumOps;
      ExclusiveSumByKey(sortedOps, writeOpsBefore, n);
      ReverseExclusiveSumByKey(sortedOps, writeOpsAfter, n);
      CalcOperationType(sortedOps, writeOpsBefore, writeOpsAfter, rwOpsType, n);
      ExclusiveSum(sortedOps[..n], rwOpsType, tverWriteOpsBefore, n);
      ScatterRWLocation(sortedOps, rwOpsType, tverWriteOpsBefore, plan, base, n, Words(sortedOps[..n]));
    }

    /** Plans one epoch of the table: every submitted access finds in its plan word the location
        of a correct plan, and no other plan word changes. */
    method InitializeExecutionPlan(plan: array<nat>, base: seq<nat>)
      requires Valid() && currNumOps < WORD
      requires plan != writeOpsBefore && plan != writeOpsAfter && plan != tverWriteOpsBefore
      requires Addressable(base, Submitted(), plan.Length) && DistinctWords(base, Submitted(), plan.Length)
      modifies sortedOps, writeOpsBefore, writeOpsAfter, rwOpsType, tverWriteOpsBefore, plan
      ensures Valid() && Submitted() == old(Submitted())
      ensures HoldsPlan(base, Submitted(), plan[..])
      ensures KeepsOtherWords(base, Submitted(), old(plan[..]), plan[..])
    {
      ghost var ops := Submitted();
      var n := currNumOps;
      if n == 0 {
        NothingToPlan(base, ops, plan[..]);
        return;
      }
      SortSubmitted();
      ghost var s := sortedOps[..n];
      SortedWordsDistinct(base, ops, s, plan.Length);
      ScatterSorted(plan, base);
      ScatteredPlan(base, ops, s, old(plan[..]), plan[..]);
    }
  }

  // ------------------------------------------------------------------ what the plan holds

  /** Every access of the batch finds in its plan word its location in a correct plan. */
  ghost predicate HoldsPlan(base: seq<nat>, ops: seq<Op>, words: seq<nat>)
    requires Addressable(base, ops, |words|)
  {
    exists locs ::
      PlanOk(AccessesOf(ops), locs, OneTable) && forall j: nat | j < |ops| ::
        DecodeLoc(words[Address(base, ops[j])]) == locs[j]
  }

  ghost predicate KeepsOtherWords(base: seq<nat>, ops: seq<Op>, was: seq<nat>, now: seq<nat>)
    requires |was| == |now| && Addressable(base, ops, |now|)
  {
    forall a: nat | a < |now| && now[a] != was[a] :: exists j: nat :: j < |ops| && Address(base, ops[j]) == a
  }

  lemma NothingToPlan(base: seq<nat>, ops: seq<Op>, words: seq<nat>)
    requires ops == []
    ensures HoldsPlan(base, ops, words)
  {
    assert PlanOk(AccessesOf(ops), [], OneTable);
  }

  lemma {:induction false} SortedFrom(ops: seq<Op>, s: seq<Op>, i: nat) returns (j: nat)
    requires IsSorted(ops, s) && i < |s|
    ensures j < |ops| && s[i] == ops[j] && Sort.Pos(KeysOf(ops), j) == i
  {
    j := Sort.PosOnto(KeysOf(ops), i);
  }

  /** Sorting moves the accesses around but keeps their plan words distinct. */
  lemma {:induction false} SortedWordsDistinct(base: seq<nat>, ops: seq<Op>, s: seq<Op>, size: nat)
    requires IsSorted(ops, s)
    requires Addressable(base, ops, size) && DistinctWords(base, ops, size)
    ensures Addressable(base, s, size) && DistinctWords(base, s, size)
  {
    forall i: nat | i < |s|
      ensures s[i].txn < |base| && Address(base, s[i]) < size
    {
      var j := SortedFrom(ops, s, i);
    }
    forall i, j | 0 <= i < j < |s| ensures Address(base, s[i]) != Address(base, s[j]) {
      var a := SortedFrom(ops, s, i);
      var b := SortedFrom(ops, s, j);
      assert a < b || b < a;
    }
  }

  /** What the scatter leaves in the plan is the correct plan of the batch. */
  lemma {:induction false} ScatteredPlan(base: seq<nat>, ops: seq<Op>, s: seq<Op>, was: seq<nat>, now: seq<nat>)
    requires IsSorted(ops, s) && |ops| < WORD && |was| == |now|
    requires Addressable(base, ops, |now|) && Addressable(base, s, |now|)
    requires WordsScattered(base, s, Words(s), was, now)
    ensures HoldsPlan(base, ops, now)
    ensures KeepsOtherWords(base, ops, was, now)
  {
    PlanIsCorrect(ops, s);
    var locs := SubmittedLocs(ops, s);
    forall j: nat | j < |ops| ensures DecodeLoc(now[Address(base, ops[j])]) == locs[j] {
      assert s[Sort.Pos(KeysOf(ops), j)] == ops[j];
    }
    forall a: nat | a < |now| && now[a] != was[a]
      ensures exists j: nat :: j < |ops| && Address(base, ops[j]) == a
    {
      var i: nat :| i < |s| && Address(base, s[i]) == a;
      var j := SortedFrom(ops, s, i);
    }
  }
}
