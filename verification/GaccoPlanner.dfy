/** GAccO's execution planner of one table: it sorts the submitted names by row, and builds for
    every row the list of the transactions that will lock it, where that list begins, and the
    first holder. */
module GaccoPlanner {
  import Sort = StableSort

  datatype LockOp = LockOp(record: nat, txn: nat)

  function KeysOf(ops: seq<LockOp>): (keys: seq<nat>)
    ensures |keys| == |ops| && forall j | 0 <= j < |ops| :: keys[j] == ops[j].record
  {
    seq(|ops|, j requires 0 <= j < |ops| => ops[j].record)
  }

  ghost predicate IsSorted(ops: seq<LockOp>, s: seq<LockOp>) {
    Sort.IsSort(KeysOf(ops), ops, s)
  }

  /** Where row's list begins: after the names of all smaller rows. */
  function ListBase(ops: seq<LockOp>, row: nat): nat {
    Sort.CountLess(KeysOf(ops), row, |ops|)
  }

  /** How many of the first j submitted names are for row. */
  function ListIndex(ops: seq<LockOp>, row: nat, j: nat): nat
    requires j <= |ops|
  {
    Sort.Rank(KeysOf(ops), row, j)
  }

  /** Every row has its names in the order of submission, one after the other, and its first name
      is the holder. */
  ghost predicate ListsBuilt(ops: seq<LockOp>, access: seq<nat>, offset: seq<nat>, lock: seq<nat>) {
    forall j: nat | j < |ops| ::
      var row := ops[j].record;
      && row < |offset| && row < |lock|
      && offset[row] == ListBase(ops, row)
      && ListBase(ops, row) + ListIndex(ops, row, j) < |access|
      && access[ListBase(ops, row) + ListIndex(ops, row, j)] == ops[j].txn
      && lock[row] == access[ListBase(ops, row)]
  }

  // ------------------------------------------------------------------ run-length encoding

  function Start(counts: seq<nat>, i: nat): nat
    requires i <= |counts|
  {
    if i == 0 then 0 else Start(counts, i - 1) + counts[i - 1]
  }

  /** rows is unique[0] repeated counts[0] times, then unique[1], and so on, each run as long as
      possible. */
  ghost predicate IsRunLength(rows: seq<nat>, unique: seq<nat>, counts: seq<nat>) {
    && |unique| == |counts| && Start(counts, |counts|) == |rows|
    && (forall i: nat | i < |unique| :: InRun(rows, unique, counts, i))
    && (forall i: nat | i + 1 < |unique| :: unique[i] != unique[i + 1])
  }

  ghost predicate InRun(rows: seq<nat>, unique: seq<nat>, counts: seq<nat>, i: nat)
    requires i < |unique| == |counts|
  {
    && counts[i] > 0 && Start(counts, i + 1) <= |rows|
    && forall q | Start(counts, i) <= q < Start(counts, i + 1) :: rows[q] == unique[i]
  }

  lemma {:induction false} StartPrefix(counts: seq<nat>, more: seq<nat>, i: nat)
    requires i <= |counts|
    ensures Start(counts + more, i) == Start(counts, i)
  {
    if i > 0 { StartPrefix(counts, more, i - 1); }
  }

  lemma {:induction false} StartMonotone(counts: seq<nat>, i: nat, j: nat)
    requires i <= j <= |counts|
    ensures Start(counts, i) <= Start(counts, j)
    decreases j - i
  {
    if i < j { StartMonotone(counts, i, j - 1); }
  }

  /** One more entry: it continues the last run, or starts a run of its own. */
  lemma {:induction false} NewRun(rows: seq<nat>, unique: seq<nat>, counts: seq<nat>, row: nat)
    requires IsRunLength(rows, unique, counts)
    requires unique == [] || unique[|unique| - 1] != row
    ensures IsRunLength(rows + [row], unique + [row], counts + [1])
  {
    var n := |unique|;
    StartPrefix(counts, [1], n);
    forall i: nat | i < n + 1 ensures InRun(rows + [row], unique + [row], counts + [1], i) {
      if i < n {
        assert InRun(rows, unique, counts, i);
        StartPrefix(counts, [1], i);
        StartPrefix(counts, [1], i + 1);
      }
    }
  }

  lemma {:induction false} LongerRun(rows: seq<nat>, unique: seq<nat>, counts: seq<nat>)
    requires IsRunLength(rows, unique, counts) && unique != []
    ensures var n := |unique| - 1;
            IsRunLength(rows + [unique[n]], unique, counts[n := counts[n] + 1])
  {
    var n := |unique| - 1;
    var more := counts[n := counts[n] + 1];
    forall i: nat | i < n + 1 ensures InRun(rows + [unique[n]], unique, more, i) && Start(more, i) == Start(counts, i) {
      assert InRun(rows, unique, counts, i);
      SameStart(counts, more, i);
      if i < n { SameStart(counts, more, i + 1); }
    }
    SameStart(counts, more, n);
  }

  lemma {:induction false} SameStart(counts: seq<nat>, more: seq<nat>, i: nat)
    requires i <= |counts| && i <= |more| && counts[..i] == more[..i]
    ensures Start(counts, i) == Start(more, i)
  {
    assert counts == counts[..i] + counts[i..] && more == more[..i] + more[i..];
    StartPrefix(counts[..i], counts[i..], i);
    StartPrefix(more[..i], more[i..], i);
  }

  ghost predicate Grouped(rows: seq<nat>) {
    forall i, j | 0 <= i < j < |rows| :: rows[i] <= rows[j]
  }

  lemma {:induction false} RunsIncrease(rows: seq<nat>, unique: seq<nat>, counts: seq<nat>, i: nat, j: nat)
    requires Grouped(rows) && IsRunLength(rows, unique, counts) && i < j < |unique|
    ensures unique[i] < unique[j]
    decreases j - i
  {
    var m := j - 1;
    assert InRun(rows, unique, counts, m) && InRun(rows, unique, counts, j);
    assert rows[Start(counts, m)] == unique[m] && rows[Start(counts, j)] == unique[j];
    assert unique[m] != unique[m + 1];
    if i < m { RunsIncrease(rows, unique, counts, i, m); }
  }

  /** As the runs of grouped rows are of different rows, there are no more of them than rows up to
      the last: run i is of row i or a later one. */
  lemma {:induction false} RunAtLeast(rows: seq<nat>, unique: seq<nat>, counts: seq<nat>, i: nat)
    requires Grouped(rows) && IsRunLength(rows, unique, counts) && i < |unique|
    ensures unique[i] >= i && unique[i] in rows
  {
    hide IsRunLength, Grouped;
    if i > 0 {
      RunAtLeast(rows, unique, counts, i - 1);
      RunsIncrease(rows, unique, counts, i - 1, i);
    }
    RunIsOfRow(rows, unique, counts, i);
  }

  lemma RunIsOfRow(rows: seq<nat>, unique: seq<nat>, counts: seq<nat>, i: nat)
    requires IsRunLength(rows, unique, counts) && i < |unique|
    ensures unique[i] in rows
  {
    assert InRun(rows, unique, counts, i);
    assert rows[Start(counts, i)] == unique[i];
  }

  /** There are no more different rows than records. */
  lemma {:induction false} RunsFit(rows: seq<nat>, unique: seq<nat>, counts: seq<nat>, numRecords: nat)
    requires Grouped(rows) && IsRunLength(rows, unique, counts) && forall r | r in rows :: r < numRecords
    ensures |unique| <= numRecords
  {
    hide IsRunLength, Grouped;
    if unique != [] { RunAtLeast(rows, unique, counts, |unique| - 1); }
  }

  /** So there is room for one more run. */
  lemma {:induction false} RoomForRun(rows: seq<nat>, unique: seq<nat>, counts: seq<nat>, row: nat)
    requires Grouped(rows + [row]) && IsRunLength(rows, unique, counts)
    requires unique == [] || unique[|unique| - 1] != row
    ensures |unique| <= row
  {
    if unique != [] {
      GroupedPrefix(rows, row);
      RunAtLeast(rows, unique, counts, |unique| - 1);
    }
  }

  lemma GroupedPrefix(rows: seq<nat>, row: nat)
    requires Grouped(rows + [row])
    ensures Grouped(rows) && forall r | r in rows :: r <= row
  {
    forall i, j | 0 <= i < j < |rows| ensures rows[i] <= rows[j] {
      assert (rows + [row])[i] <= (rows + [row])[j];
    }
    forall i | 0 <= i < |rows| ensures rows[i] <= row {
      assert (rows + [row])[i] <= (rows + [row])[|rows|];
    }
  }

  lemma GroupedUpTo(rows: seq<nat>, n: nat)
    requires Grouped(rows) && n <= |rows|
    ensures Grouped(rows[..n])
  {}

  method RunLengthEncode(sorted: array<LockOp>, n: nat, uniqueRows: array<nat>, uniqueAccess: array<nat>)
    returns (numUnique: nat)
    requires n <= sorted.Length && uniqueRows.Length == uniqueAccess.Length && uniqueRows != uniqueAccess
    requires Grouped(KeysOf(sorted[..n])) && forall q: nat | q < n :: sorted[q].record < uniqueRows.Length
    modifies uniqueRows, uniqueAccess
    ensures numUnique <= n && numUnique <= uniqueRows.Length
    ensures IsRunLength(KeysOf(sorted[..n]), uniqueRows[..numUnique], uniqueAccess[..numUnique])
  {
    numUnique := 0;
    for i := 0 to n
      invariant numUnique <= i && numUnique <= uniqueRows.Length
      invariant IsRunLength(KeysOf(sorted[..i]), uniqueRows[..numUnique], uniqueAccess[..numUnique])
    {
      hide IsRunLength, Grouped;
      ghost var rows, unique, counts := KeysOf(sorted[..i]), uniqueRows[..numUnique], uniqueAccess[..numUnique];
      assert KeysOf(sorted[..i + 1]) == rows + [sorted[i].record];
      if numUnique > 0 && uniqueRows[numUnique - 1] == sorted[i].record {
        LongerRun(rows, unique, counts);
        uniqueAccess[numUnique - 1] := uniqueAccess[numUnique - 1] + 1;
        assert uniqueAccess[..numUnique] == counts[numUnique - 1 := counts[numUnique - 1] + 1];
      } else {
        GroupedUpTo(KeysOf(sorted[..n]), i + 1);
        assert KeysOf(sorted[..n])[..i + 1] == rows + [sorted[i].record];
        RoomForRun(rows, unique, counts, sorted[i].record);
        NewRun(rows, unique, counts, sorted[i].record);
        uniqueRows[numUnique], uniqueAccess[numUnique] := sorted[i].record, 1;
        numUnique := numUnique + 1;
        assert uniqueAccess[..numUnique] == counts + [1];
        assert uniqueRows[..numUnique] == unique + [sorted[i].record];
      }
    }
  }

  method ExclusiveSum(counts: array<nat>, output: array<nat>, n: nat)
    requires n <= counts.Length && n <= output.Length && counts != output
    modifies output
    ensures forall i: nat | i < n :: output[i] == Start(counts[..n], i)
  {
    var sum := 0;
    for i := 0 to n
      invariant sum == Start(counts[..n], i)
      invariant forall j: nat | j < i :: output[j] == Start(counts[..n], j)
    {
      output[i] := sum;
      sum := sum + counts[i];
    }
  }

  // ---------------------------------------------------------------- what the runs mean

  lemma {:induction false} SortedIsGrouped(ops: seq<LockOp>, s: seq<LockOp>)
    requires IsSorted(ops, s)
    ensures Grouped(KeysOf(s))
  {
    forall i, j | 0 <= i < j < |s| ensures s[i].record <= s[j].record {
      var a := Sort.PosOnto(KeysOf(ops), i);
      var b := Sort.PosOnto(KeysOf(ops), j);
      Sort.PosOrder(KeysOf(ops), a, b);
    }
  }

  lemma PosInList(ops: seq<LockOp>, j: nat)
    requires j < |ops|
    ensures Sort.Pos(KeysOf(ops), j) == ListBase(ops, ops[j].record) + ListIndex(ops, ops[j].record, j)
  {}

  /** The first sorted entry of a row is where the row's list begins. */
  lemma {:induction false} FirstOfRow(ops: seq<LockOp>, s: seq<LockOp>, q: nat)
    requires IsSorted(ops, s) && q < |s| && (q == 0 || s[q - 1].record != s[q].record)
    ensures q == ListBase(ops, s[q].record)
  {
    hide Sort.Pos, ListBase;
    var keys := KeysOf(ops);
    var j := Sort.PosOnto(keys, q);
    PosInList(ops, j);
    SortedIsGrouped(ops, s);
    if ListIndex(ops, ops[j].record, j) > 0 {
      var i := RankedBefore(keys, keys[j], j);
      Sort.PosOrder(keys, i, j);
    }
  }

  lemma {:induction false} RankedBefore(keys: seq<nat>, r: nat, j: nat) returns (i: nat)
    requires j <= |keys| && Sort.Rank(keys, r, j) > 0
    ensures i < j && keys[i] == r
  {
    if keys[j - 1] == r { i := j - 1; } else { i := RankedBefore(keys, r, j - 1); }
  }

  lemma {:induction false} RunOf(counts: seq<nat>, n: nat, q: nat) returns (i: nat)
    requires n <= |counts| && q < Start(counts, n)
    ensures i < n && Start(counts, i) <= q < Start(counts, i + 1)
  {
    if q < Start(counts, n - 1) { i := RunOf(counts, n - 1, q); } else { i := n - 1; }
  }

  /** A run begins where the list of its row does. */
  lemma {:induction false} RunBase(ops: seq<LockOp>, s: seq<LockOp>, unique: seq<nat>, counts: seq<nat>, i: nat)
    requires IsSorted(ops, s) && IsRunLength(KeysOf(s), unique, counts) && i < |unique|
    ensures Start(counts, i) < |s| && s[Start(counts, i)].record == unique[i]
    ensures Start(counts, i) == ListBase(ops, unique[i])
  {
    var rows, q := KeysOf(s), Start(counts, i);
    assert InRun(rows, unique, counts, i);
    assert rows[q] == unique[i];
    if i > 0 {
      assert InRun(rows, unique, counts, i - 1);
      assert rows[q - 1] == unique[i - 1] != unique[i - 1 + 1];
    }
    FirstOfRow(ops, s, q);
  }

  // ------------------------------------------------------------------------ the planner

  class GpuTableExecutionPlanner {
    const submittedOps: array<LockOp>
    const sortedOps: array<LockOp>
    const uniqueRows: array<nat>
    const uniqueAccess: array<nat>
    const uniqueOffset: array<nat>
    const access: array<nat>
    const offset: array<nat>
    const lock: array<nat>
    var currNumOps: nat

    ghost predicate Valid()
      reads this
    {
      && submittedOps.Length == sortedOps.Length == access.Length && submittedOps != sortedOps
      && uniqueRows.Length == uniqueAccess.Length == uniqueOffset.Length == offset.Length == lock.Length
      && uniqueRows != uniqueAccess && uniqueRows != uniqueOffset && uniqueAccess != uniqueOffset
      && {access, offset, lock} !! {uniqueRows, uniqueAccess, uniqueOffset}
      && access != offset && access != lock && offset != lock
      && currNumOps <= submittedOps.Length
    }

    constructor (maxNumOps: nat, numRecords: nat, default: LockOp)
      ensures Valid() && submittedOps.Length == maxNumOps && offset.Length == numRecords && currNumOps == 0
    {
      submittedOps := new LockOp[maxNumOps](_ => default);
      sortedOps := new LockOp[maxNumOps](_ => default);
      uniqueRows := new nat[numRecords];
      uniqueAccess := new nat[numRecords];
      uniqueOffset := new nat[numRecords];
      access := new nat[maxNumOps];
      offset := new nat[numRecords];
      lock := new nat[numRecords];
      currNumOps := 0;
    }

    ghost function Submitted(): (ops: seq<LockOp>)
      requires Valid()
      reads this, submittedOps
      ensures |ops| == currNumOps
    {
      submittedOps[..currNumOps]
    }

    method CopyAccessTid()
      requires Valid()
      modifies access
      ensures forall q: nat | q < currNumOps :: access[q] == sortedOps[q].txn
    {
      for q := 0 to currNumOps
        invariant forall i: nat | i < q :: access[i] == sortedOps[i].txn
      {
        access[q] := sortedOps[q].txn;
      }
    }

    method BuildAuxArray(numUnique: nat)
      requires Valid() && numUnique <= uniqueRows.Length
      requires forall i: nat | i < numUnique :: uniqueRows[i] < offset.Length && uniqueOffset[i] < currNumOps
      requires forall i: nat, j: nat | i < j < numUnique :: uniqueRows[i] != uniqueRows[j]
      modifies offset, lock
      ensures forall i: nat | i < numUnique ::
                offset[uniqueRows[i]] == uniqueOffset[i] && lock[uniqueRows[i]] == access[uniqueOffset[i]]
      ensures forall r: nat | r < offset.Length && (forall i: nat | i < numUnique :: uniqueRows[i] != r) ::
                offset[r] == old(offset[r]) && lock[r] == old(lock[r])
    {
      for t := 0 to numUnique
        invariant forall i: nat | i < t ::
                    offset[uniqueRows[i]] == uniqueOffset[i] && lock[uniqueRows[i]] == access[uniqueOffset[i]]
        invariant forall r: nat | r < offset.Length && (forall i: nat | i < t :: uniqueRows[i] != r) ::
                    offset[r] == old(offset[r]) && lock[r] == old(lock[r])
      {
        var rowId := uniqueRows[t];
        var myOffset := uniqueOffset[t];
        offset[rowId] := myOffset;
        lock[rowId] := access[myOffset];
      }
    }

    /** The rows of the sorted names, how often each occurs, and where each begins. */
    method EncodeRuns() returns (numUnique: nat)
      requires Valid() && Grouped(KeysOf(sortedOps[..currNumOps]))
      requires forall q: nat | q < currNumOps :: sortedOps[q].record < offset.Length
      modifies uniqueRows, uniqueAccess, uniqueOffset
      ensures numUnique <= uniqueRows.Length
      ensures IsRunLength(KeysOf(sortedOps[..currNumOps]), uniqueRows[..numUnique], uniqueAccess[..numUnique])
      ensures Sums(uniqueAccess[..numUnique], uniqueOffset[..numUnique])
    {
      hide IsRunLength;
      numUnique := RunLengthEncode(sortedOps, currNumOps, uniqueRows, uniqueAccess);
      ExclusiveSum(uniqueAccess, uniqueOffset, numUnique);
    }

    method BuildLists(numUnique: nat, ghost ops: seq<LockOp>)
      requires Valid() && |ops| == currNumOps && numUnique <= uniqueRows.Length
      requires IsSorted(ops, sortedOps[..currNumOps])
      requires IsRunLength(KeysOf(sortedOps[..currNumOps]), uniqueRows[..numUnique], uniqueAccess[..numUnique])
      requires Sums(uniqueAccess[..numUnique], uniqueOffset[..numUnique])
      requires forall r: nat | Listed(ops, r) :: r < offset.Length
      modifies access, offset, lock
      ensures ListsBuilt(ops, access[..], offset[..], lock[..])
      ensures forall r: nat | r < offset.Length && !Listed(ops, r) ::
                offset[r] == old(offset[r]) && lock[r] == old(lock[r])
    {
      hide IsSorted, IsRunLength, ListsBuilt, Listed, Sums;
      CopyAccessTid();
      ghost var unique, counts, offsets := uniqueRows[..numUnique], uniqueAccess[..numUnique],
        uniqueOffset[..numUnique];
      RunsAreLists(ops, sortedOps[..currNumOps], unique, counts, offsets);
      assert forall i: nat | i < numUnique :: uniqueRows[i] == unique[i] && uniqueOffset[i] == offsets[i];
      BuildAuxArray(numUnique);
      AllListsBuilt(ops, sortedOps[..currNumOps], unique, counts, offsets, access[..], offset[..], lock[..]);
    }

    /** Sorting groups the names of a row. */
    method SortSubmitted()
      requires Valid() && forall j: nat | j < currNumOps :: submittedOps[j].record < offset.Length
      modifies sortedOps
      ensures IsSorted(Submitted(), sortedOps[..currNumOps]) && Grouped(KeysOf(sortedOps[..currNumOps]))
      ensures forall q: nat | q < currNumOps :: sortedOps[q].record < offset.Length
    {
      hide Sort.IsSort, Grouped;
      Sort.SortKeys(KeysOf(submittedOps[..currNumOps]), submittedOps, sortedOps);
      SortedIsGrouped(Submitted(), sortedOps[..currNumOps]);
      SortedInRange(Submitted(), sortedOps[..currNumOps], offset.Length);
      assert forall q: nat | q < currNumOps :: sortedOps[q] == sortedOps[..currNumOps][q];
    }

    method InitializeExecutionPlan()
      requires Valid() && forall j: nat | j < currNumOps :: submittedOps[j].record < offset.Length
      modifies sortedOps, uniqueRows, uniqueAccess, uniqueOffset, access, offset, lock
      ensures Valid() && Submitted() == old(Submitted())
      ensures ListsBuilt(Submitted(), access[..], offset[..], lock[..])
      ensures forall r: nat | r < offset.Length && !Listed(Submitted(), r) ::
                offset[r] == old(offset[r]) && lock[r] == old(lock[r])
    {
      if currNumOps == 0 { return; }
      hide IsSorted, IsRunLength, ListsBuilt, Sums, Grouped;
      assert forall r: nat | Listed(Submitted(), r) :: r < offset.Length;
      hide Listed;
      SortSubmitted();
      var numUnique := EncodeRuns();
      BuildLists(numUnique, Submitted());
    }
  }

  ghost predicate Sums(counts: seq<nat>, offsets: seq<nat>) {
    |offsets| == |counts| && forall i: nat | i < |counts| :: offsets[i] == Start(counts, i)
  }

  ghost predicate Listed(ops: seq<LockOp>, row: nat) {
    exists j: nat :: j < |ops| && ops[j].record == row
  }

  lemma {:induction false} SortedInRange(ops: seq<LockOp>, s: seq<LockOp>, numRecords: nat)
    requires IsSorted(ops, s) && forall j: nat | j < |ops| :: ops[j].record < numRecords
    ensures |s| == |ops| && forall q: nat | q < |s| :: s[q].record < numRecords
  {
    forall q: nat | q < |s| ensures s[q].record < numRecords {
      var j := Sort.PosOnto(KeysOf(ops), q);
      assert ops[j].record == s[q].record;
    }
  }

  /** The runs are of different rows, each a submitted one, and begin where the rows' lists do. */
  lemma {:induction false} RunsAreLists(ops: seq<LockOp>, s: seq<LockOp>, unique: seq<nat>, counts: seq<nat>,
                                        offsets: seq<nat>)
    requires IsSorted(ops, s) && IsRunLength(KeysOf(s), unique, counts) && Sums(counts, offsets)
    ensures forall i: nat, j: nat | i < j < |unique| :: unique[i] != unique[j]
    ensures forall i: nat | i < |unique| :: offsets[i] < |ops| && Listed(ops, unique[i])
  {
    SortedIsGrouped(ops, s);
    forall i: nat, j: nat | i < j < |unique| ensures unique[i] != unique[j] {
      RunsIncrease(KeysOf(s), unique, counts, i, j);
    }
    forall i: nat | i < |unique| ensures offsets[i] < |ops| && Listed(ops, unique[i]) {
      RunBase(ops, s, unique, counts, i);
      var j := Sort.PosOnto(KeysOf(ops), Start(counts, i));
      assert ops[j].record == unique[i];
    }
  }

  lemma {:induction false} AllListsBuilt(ops: seq<LockOp>, s: seq<LockOp>, unique: seq<nat>, counts: seq<nat>,
                                         offsets: seq<nat>,
                                         access: seq<nat>, offset: seq<nat>, lock: seq<nat>)
    requires IsSorted(ops, s) && IsRunLength(KeysOf(s), unique, counts) && Sums(counts, offsets)
    requires |access| >= |s| && forall q: nat | q < |s| :: access[q] == s[q].txn
    requires forall i: nat | i < |unique| ::
               && unique[i] < |offset| && unique[i] < |lock| && offsets[i] < |s|
               && offset[unique[i]] == offsets[i] && lock[unique[i]] == access[offsets[i]]
    ensures ListsBuilt(ops, access, offset, lock)
  {
    forall j: nat | j < |ops|
      ensures var row := ops[j].record;
              && row < |offset| && row < |lock|
              && offset[row] == ListBase(ops, row)
              && ListBase(ops, row) + ListIndex(ops, row, j) < |access|
              && access[ListBase(ops, row) + ListIndex(ops, row, j)] == ops[j].txn
              && lock[row] == access[ListBase(ops, row)]
    {
      hide IsSorted, IsRunLength, Sums, ListBase, ListIndex;
      var i := RunOfName(ops, s, unique, counts, offsets, j);
    }
  }

  /** The run of the row that a name is for. */
  lemma {:induction false} RunOfName(ops: seq<LockOp>, s: seq<LockOp>, unique: seq<nat>, counts: seq<nat>,
                                     offsets: seq<nat>, j: nat) returns (i: nat)
    requires IsSorted(ops, s) && IsRunLength(KeysOf(s), unique, counts) && Sums(counts, offsets) && j < |ops|
    ensures i < |unique| == |offsets| && unique[i] == ops[j].record && offsets[i] == ListBase(ops, ops[j].record)
    ensures ListBase(ops, ops[j].record) + ListIndex(ops, ops[j].record, j) < |s|
    ensures s[ListBase(ops, ops[j].record) + ListIndex(ops, ops[j].record, j)] == ops[j]
  {
    hide Sort.Pos, ListBase, ListIndex, Start, Sums, IsRunLength;
    var q := SortedAt(ops, s, j);
    RunsCover(KeysOf(s), unique, counts);
    i := RunOf(counts, |counts|, q);
    RunHolds(KeysOf(s), unique, counts, i, q);
    RunBase(ops, s, unique, counts, i);
    SumAt(counts, offsets, i);
  }

  lemma SortedAt(ops: seq<LockOp>, s: seq<LockOp>, j: nat) returns (q: nat)
    requires IsSorted(ops, s) && j < |ops|
    ensures q < |s| && s[q] == ops[j] && q == ListBase(ops, ops[j].record) + ListIndex(ops, ops[j].record, j)
  {
    q := Sort.Pos(KeysOf(ops), j);
  }

  lemma RunsCover(rows: seq<nat>, unique: seq<nat>, counts: seq<nat>)
    requires IsRunLength(rows, unique, counts)
    ensures |unique| == |counts| && Start(counts, |counts|) == |rows|
  {}

  lemma RunHolds(rows: seq<nat>, unique: seq<nat>, counts: seq<nat>, i: nat, q: nat)
    requires IsRunLength(rows, unique, counts)
    requires i < |counts| && Start(counts, i) <= q < Start(counts, i + 1)
    ensures i < |unique| && q < |rows| && rows[q] == unique[i]
  {
    assert InRun(rows, unique, counts, i);
  }

  lemma SumAt(counts: seq<nat>, offsets: seq<nat>, i: nat)
    requires Sums(counts, offsets) && i < |counts|
    ensures i < |offsets| == |counts| && offsets[i] == Start(counts, i)
  {}
}
