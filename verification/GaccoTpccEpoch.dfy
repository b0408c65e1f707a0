/** One epoch of GAccO on TPC-C, from the indexed transactions to the rows, under every setting. */
module GaccoTpccEpoch {
  import opened Execution
  import opened GaccoTpcc
  import opened LockDevice
  import opened LockPrograms
  import opened LockSafety
  import opened Locks
  import Offsets
  import Plan = GaccoPlanner

  type TablePlanner = Plan.GpuTableExecutionPlanner

  const TABLES: nat := 8

  // ------------------------------------------------------------------ submission

  /** What the transactions' threads write into table's buffer. */
  function Parts(mode: Mode, txns: seq<Txn>, table: nat): (parts: seq<seq<Plan.LockOp>>)
    ensures |parts| == |txns|
    ensures forall u: nat | u < |txns| :: parts[u] == LockOps(Listed(mode, txns[u], table), u)
  {
    seq(|txns|, u requires 0 <= u < |txns| => LockOps(Listed(mode, txns[u], table), u))
  }

  lemma {:induction false} PartsAreSubmitted(mode: Mode, txns: seq<Txn>, table: nat, n: nat)
    requires n <= |txns|
    ensures Offsets.Concat(Parts(mode, txns, table), n) == Submitted(mode, txns, table, n)
    decreases n
  {
    hide Listed;
    if n > 0 { PartsAreSubmitted(mode, txns, table, n - 1); }
  }

  /** The first pass counts what every thread of the second pass will write. */
  method CountOps(mode: Mode, txns: seq<Txn>, table: nat, numOps: array<nat>)
    requires |txns| <= numOps.Length
    modifies numOps
    ensures forall u: nat | u < |txns| :: numOps[u] == |Parts(mode, txns, table)[u]|
  {
    hide NumOps, Listed;
    for u := 0 to |txns|
      invariant forall v: nat | v < u :: numOps[v] == |Parts(mode, txns, table)[v]|
    {
      CountsWhatIsListed(mode, txns[u], table);
      numOps[u] := NumOps(mode, txns[u], table);
    }
  }

  /** Both passes and the prefix sum between them.  The threads of the second pass may run in any
      order. */
  method SubmitTable(mode: Mode, txns: seq<Txn>, table: nat, numOps: array<nat>, offsets: array<nat>,
                     dest: array<Plan.LockOp>)
    returns (currNumOps: nat)
    requires |Submitted(mode, txns, table, |txns|)| <= dest.Length
    requires |txns| <= numOps.Length && |txns| < offsets.Length && numOps != offsets && offsets[0] == 0
    modifies numOps, offsets, dest
    ensures currNumOps == |Submitted(mode, txns, table, |txns|)|
    ensures dest[..currNumOps] == Submitted(mode, txns, table, |txns|)
  {
    hide Listed, Submitted;
    PartsAreSubmitted(mode, txns, table, |txns|);
    CountOps(mode, txns, table, numOps);
    Offsets.InclusiveSum(Parts(mode, txns, table), numOps, offsets, |txns|);
    currNumOps := Offsets.WriteParts(Parts(mode, txns, table), offsets, dest);
  }

  // ------------------------------------------------------------------ the planners

  ghost function Buffers(p: TablePlanner): set<array<nat>> {
    {p.uniqueRows, p.uniqueAccess, p.uniqueOffset, p.access, p.offset, p.lock}
  }

  /** The planners of the tables share nothing. */
  ghost predicate Separate(planners: seq<TablePlanner>) {
    && (forall i: nat, j: nat | i < j < |planners| :: planners[i] != planners[j])
    && (forall i: nat, j: nat | i < j < |planners| :: Buffers(planners[i]) !! Buffers(planners[j]))
    && (forall i: nat, j: nat | i < |planners| && j < |planners| :: planners[i].submittedOps != planners[j].sortedOps)
    && (forall i: nat, j: nat | i < j < |planners| :: planners[i].submittedOps != planners[j].submittedOps)
  }

  /** The planner has room for the table's names, which are of rows of the table. */
  ghost predicate HasRoom(p: TablePlanner, ops: seq<Plan.LockOp>)
    reads p
  {
    p.Valid() && |ops| <= p.submittedOps.Length && forall j: nat | j < |ops| :: ops[j].record < p.offset.Length
  }

  ghost predicate IsLoaded(p: TablePlanner, ops: seq<Plan.LockOp>)
    reads p, p.submittedOps
  {
    HasRoom(p, ops) && p.Submitted() == ops
  }

  ghost predicate IsPlanned(p: TablePlanner, ops: seq<Plan.LockOp>)
    reads p.access, p.offset, p.lock
  {
    Plan.ListsBuilt(ops, p.access[..], p.offset[..], p.lock[..])
  }

  function Batch(mode: Mode, txns: seq<Txn>, table: nat): seq<Plan.LockOp> {
    Submitted(mode, txns, table, |txns|)
  }

  method LoadTable(mode: Mode, txns: seq<Txn>, table: nat, p: TablePlanner)
    requires HasRoom(p, Batch(mode, txns, table))
    modifies p, p.submittedOps
    ensures IsLoaded(p, Batch(mode, txns, table))
  {
    hide Submitted;
    var numOps, offsets := new nat[|txns|], new nat[|txns| + 1](_ => 0);
    var n := SubmitTable(mode, txns, table, numOps, offsets, p.submittedOps);
    p.currNumOps := n;
  }

  method PlanTable(ghost ops: seq<Plan.LockOp>, p: TablePlanner)
    requires IsLoaded(p, ops)
    modifies p.sortedOps, Buffers(p)
    ensures IsPlanned(p, ops)
  {
    hide Plan.ListsBuilt;
    forall j: nat | j < p.currNumOps ensures p.submittedOps[j].record < p.offset.Length {
      assert p.submittedOps[j] == p.Submitted()[j] == ops[j];
    }
    p.InitializeExecutionPlan();
  }

  method LoadTables(mode: Mode, txns: seq<Txn>, planners: seq<TablePlanner>)
    requires |planners| == TABLES && Separate(planners)
    requires forall t: nat | t < TABLES :: HasRoom(planners[t], Batch(mode, txns, t))
    modifies planners, set p | p in planners :: p.submittedOps
    ensures forall t: nat | t < TABLES :: IsLoaded(planners[t], Batch(mode, txns, t))
  {
    hide Batch;
    for n := 0 to TABLES
      invariant forall t: nat | n <= t < TABLES :: HasRoom(planners[t], Batch(mode, txns, t))
      invariant forall t: nat | t < n :: IsLoaded(planners[t], Batch(mode, txns, t))
    {
      LoadTable(mode, txns, n, planners[n]);
    }
  }

  method PlanTables(ghost mode: Mode, ghost txns: seq<Txn>, planners: seq<TablePlanner>)
    requires |planners| == TABLES && Separate(planners)
    requires forall t: nat | t < TABLES :: IsLoaded(planners[t], Batch(mode, txns, t))
    modifies set p | p in planners :: p.sortedOps
    modifies set p, b | p in planners && b in Buffers(p) :: b
    ensures forall t: nat | t < TABLES :: IsPlanned(planners[t], Batch(mode, txns, t))
  {
    hide Batch, Plan.ListsBuilt;
    for n := 0 to TABLES
      invariant forall t: nat | t < TABLES :: IsLoaded(planners[t], Batch(mode, txns, t))
      invariant forall t: nat | t < n :: IsPlanned(planners[t], Batch(mode, txns, t))
    {
      PlanTable(Batch(mode, txns, n), planners[n]);
    }
  }

  // ------------------------------------------------------------------ the lists

  /** The arrays of all planners as the executor reads them. */
  function ListsFrom(access: seq<seq<nat>>, offset: seq<seq<nat>>): Lists {
    Lists((t: nat, i: nat) => if t < |access| && i < |access[t]| then access[t][i] else 0,
          (k: Key) => if k.table < |offset| && k.row < |offset[k.table]| then offset[k.table][k.row] else 0)
  }

  lemma {:induction false} BuiltListsAreRead(ops: seq<Plan.LockOp>, access: seq<seq<nat>>, offset: seq<seq<nat>>,
                                             lock: seq<nat>, t: nat)
    requires t < |access| == |offset| && Plan.ListsBuilt(ops, access[t], offset[t], lock)
    ensures ListsOf(ListsFrom(access, offset), t, ops)
  {
    hide Plan.ListBase, Plan.ListIndex;
  }

  lemma {:induction false} NothingElsewhere(mode: Mode, txns: seq<Txn>, table: nat, n: nat)
    requires n <= |txns| && table >= TABLES
    ensures Submitted(mode, txns, table, n) == []
    decreases n
  {
    hide Listed;
    if n > 0 {
      NothingElsewhere(mode, txns, table, n - 1);
      CountsWhatIsListed(mode, txns[n - 1], table);
    }
  }

  lemma {:induction false} AllListsAreRead(mode: Mode, txns: seq<Txn>, access: seq<seq<nat>>, offset: seq<seq<nat>>,
                                           lock: seq<seq<nat>>)
    requires |access| == |offset| == |lock| == TABLES
    requires forall t: nat | t < TABLES :: Plan.ListsBuilt(Batch(mode, txns, t), access[t], offset[t], lock[t])
    ensures forall t: nat :: ListsOf(ListsFrom(access, offset), t, Submitted(mode, txns, t, |txns|))
  {
    forall t: nat ensures ListsOf(ListsFrom(access, offset), t, Submitted(mode, txns, t, |txns|)) {
      if t < TABLES {
        BuiltListsAreRead(Batch(mode, txns, t), access, offset, lock[t], t);
      } else {
        NothingElsewhere(mode, txns, t, |txns|);
      }
    }
  }

  method ReadPlans(ghost mode: Mode, ghost txns: seq<Txn>, planners: seq<TablePlanner>) returns (l: Lists)
    requires |planners| == TABLES
    requires forall t: nat | t < TABLES :: IsPlanned(planners[t], Batch(mode, txns, t))
    ensures forall t: nat :: ListsOf(l, t, Submitted(mode, txns, t, |txns|))
  {
    hide Batch, Plan.ListsBuilt;
    var access, offset, lock := [], [], [];
    for n := 0 to TABLES
      invariant |access| == |offset| == |lock| == n
      invariant forall t: nat | t < n :: Plan.ListsBuilt(Batch(mode, txns, t), access[t], offset[t], lock[t])
    {
      assert IsPlanned(planners[n], Batch(mode, txns, n));
      access := access + [planners[n].access[..]];
      offset := offset + [planners[n].offset[..]];
      lock := lock + [planners[n].lock[..]];
    }
    AllListsAreRead(mode, txns, access, offset, lock);
    l := ListsFrom(access, offset);
  }

  // ------------------------------------------------------------------ the theorem

  /** Whatever the setting and the interleaving, the rows end up as if the transactions had been run
      one after the other. */
  method RunEpoch(mode: Mode, txns: seq<Txn>, planners: seq<TablePlanner>, rows: map<Key, Row>,
                  work: (nat, Local, Row) -> (Row, Local)) returns (threads: Threads)
    requires |planners| == TABLES && Separate(planners)
    requires forall t: nat | t < TABLES :: HasRoom(planners[t], Batch(mode, txns, t))
    modifies planners, set p | p in planners :: p.submittedOps
    modifies set p | p in planners :: p.sortedOps
    modifies set p, b | p in planners && b in Buffers(p) :: b
    ensures forall k: Key :: threads.data.RowOf(k) ==
                             SerialData(TpccProgram(mode, txns, work), rows,
                               |TpccProgram(mode, txns, work).acts|).RowOf(k)
  {
    LoadTables(mode, txns, planners);
    PlanTables(mode, txns, planners);
    var l := ReadPlans(mode, txns, planners);
    TpccLocksReady(mode, txns, work, l);
    var p := TpccProgram(mode, txns, work);
    assert |p.token| == |txns|;
    hide LocksReady, TpccProgram, ListsOf, Batch, Separate;
    threads := new Threads(p, rows);
    threads.Execute(p, l, rows);
  }
}
