/** A whole epoch of the micro benchmark: the retried transactions of the previous batch and all of
    the current one are submitted, planned and executed, one warp for each ticket. */
module MicroEpoch {
  import opened Accesses
  import opened DeviceExecution
  import opened Execution
  import opened Machine
  import Offsets
  import opened Planner
  import opened PlannerKernels
  import opened Retry
  import opened Tables

  /** The transactions of an epoch: the previous batch with its flags, and the current batch. */
  datatype Pending = Pending(prev: seq<MicroTxnParams>, retry: seq<bool>, curr: seq<MicroTxnParams>) {
    predicate Ok() {
      && |prev| == |retry| == |curr|
      && (forall t: nat | t < |prev| && retry[t] :: |prev[t].recordIds| == 10)
      && (forall t: nat | t < |curr| :: |curr[t].recordIds| == 10)
    }

    function Tickets(): nat { 2 * |curr| }

    /** The records of a ticket that runs. */
    function Records(tid: nat): seq<nat>
      requires |prev| == |retry| == |curr| && tid < Tickets()
    {
      if tid < |curr| then (if retry[tid] then prev[tid].recordIds else []) else curr[tid - |curr|].recordIds
    }

    function OpsOf(tid: nat): seq<Op>
      requires |prev| == |retry| == |curr| && tid < Tickets()
    {
      TicketOps(prev, retry, curr, tid)
    }
  }

  /** What the first n tickets submit. */
  function Submitted(x: Pending, n: nat): seq<Op>
    requires x.Ok() && n <= x.Tickets()
  {
    if n == 0 then [] else Submitted(x, n - 1) + x.OpsOf(n - 1)
  }

  // ------------------------------------------------------------------ the executor

  /** One access as the executing warp makes it, and the word of its plan in which it looks. */
  datatype MicroTouch = MicroTouch(record: nat, write: bool, word: nat)

  /** The executor's loop: each record is read and then written. */
  function Executes(recordIds: seq<nat>, n: nat): seq<MicroTouch>
    requires n <= |recordIds|
  {
    if n == 0 then []
    else Executes(recordIds, n - 1)
         + [MicroTouch(recordIds[n - 1], false, ReadLocs(n - 1)), MicroTouch(recordIds[n - 1], true, WriteLocs(n - 1))]
  }

  /** MicroTxnExecPlan: ten read locations, then ten write locations. */
  function ReadLocs(i: nat): nat { i }
  function WriteLocs(i: nat): nat { 10 + i }

  function AsOps(ts: seq<MicroTouch>, tid: nat): (ops: seq<Op>)
    ensures |ops| == |ts| && forall g: nat | g < |ts| :: ops[g] == Op(ts[g].record, tid, ts[g].write, ts[g].word)
  {
    seq(|ts|, g requires 0 <= g < |ts| => Op(ts[g].record, tid, ts[g].write, ts[g].word))
  }

  /** Plan completeness: a ticket makes exactly the accesses that are submitted for it, and looks
      for the locations in the words that they name. */
  lemma {:induction false} TicketDoesWhatIsSubmitted(x: Pending, tid: nat)
    requires x.Ok() && tid < x.Tickets()
    ensures AsOps(Executes(x.Records(tid), |x.Records(tid)|), tid) == x.OpsOf(tid)
  {
    if x.Records(tid) != [] { ExecutesIsMicroOps(x.Records(tid), tid, 10); }
  }

  lemma {:induction false} ExecutesIsMicroOps(recordIds: seq<nat>, tid: nat, n: nat)
    requires n <= |recordIds|
    ensures AsOps(Executes(recordIds, n), tid) == MicroOps(recordIds, tid, n)
    decreases n
  {
    hide AsOps;
    if n > 0 {
      ExecutesIsMicroOps(recordIds, tid, n - 1);
    }
  }

  /** Which records those are: a ticket of the current batch reads and writes each record of its
      transaction in turn, one of the previous batch does so if its transaction is retried, and makes no
      access if not. */
  lemma {:induction false} TicketTouches(x: Pending, tid: nat, a: nat)
    requires x.Ok() && tid < x.Tickets() && a < 10
    ensures tid < |x.curr| && !x.retry[tid] ==> x.OpsOf(tid) == []
    ensures tid < |x.curr| && x.retry[tid] ==> TouchesRecord(x.OpsOf(tid), tid, x.prev[tid].recordIds[a], a)
    ensures tid >= |x.curr| ==> TouchesRecord(x.OpsOf(tid), tid, x.curr[tid - |x.curr|].recordIds[a], a)
  {
    hide MicroOps;
    if tid >= |x.curr| {
      MicroOpsAre(x.curr[tid - |x.curr|].recordIds, tid, 10);
    } else if x.retry[tid] {
      MicroOpsAre(x.prev[tid].recordIds, tid, 10);
    }
  }

  /** The a-th record of a ticket. */
  ghost predicate TouchesRecord(ops: seq<Op>, tid: nat, record: nat, a: nat) {
    && |ops| == 20 && a < 10
    && ops[2 * a] == Op(record, tid, false, a) && ops[2 * a + 1] == Op(record, tid, true, 10 + a)
  }

  // ------------------------------------------------------------------ the batch as a job

  function AccessesOfOps(ops: seq<Op>): (a: seq<Access<Key>>)
    ensures |a| == |ops|
    ensures forall g: nat | g < |ops| :: a[g] == Access(Key(0, ops[g].record), ops[g].txn, ops[g].write)
  {
    seq(|ops|, g requires 0 <= g < |ops| => Access(Key(0, ops[g].record), ops[g].txn, ops[g].write))
  }

  function Batch(x: Pending): seq<Op>
    requires x.Ok()
  {
    Submitted(x, x.Tickets())
  }

  function Starts(x: Pending): (starts: seq<nat>)
    requires x.Ok()
    ensures |starts| == x.Tickets() + 1 && forall u: nat | u < |starts| :: starts[u] == |Submitted(x, u)|
  {
    seq(x.Tickets() + 1, u requires 0 <= u <= x.Tickets() => |Submitted(x, u)|)
  }

  function MicroJob(x: Pending, lane: (nat, seq<Row>, nat) -> Word, width: nat -> nat): Job
    requires x.Ok()
  {
    Job(AccessesOfOps(Batch(x)), Starts(x), lane, width)
  }

  lemma {:induction false} SubmittedPrefix(x: Pending, m: nat, n: nat)
    requires x.Ok() && m <= n <= x.Tickets()
    ensures Submitted(x, m) <= Submitted(x, n)
    decreases n - m
  {
    hide TicketOps;
    if m < n {
      SubmittedPrefix(x, m, n - 1);
    }
  }

  /** An access of a ticket is in the ticket's part of the batch. */
  lemma {:induction false} OwnerOf(x: Pending, n: nat, g: nat)
    requires x.Ok() && n <= x.Tickets() && g < |Submitted(x, n)|
    ensures var u := Submitted(x, n)[g].txn;
            && u < n && |Submitted(x, u)| <= g < |Submitted(x, u + 1)| && |x.OpsOf(u)| == 20
            && Submitted(x, n)[g] == x.OpsOf(u)[g - |Submitted(x, u)|]
    decreases n
  {
    hide TicketOps;
    if g < |Submitted(x, n - 1)| {
      OwnerOf(x, n - 1, g);
    } else {
      OpsAreOwn(x, n - 1, g - |Submitted(x, n - 1)|);
    }
  }

  lemma {:induction false} OpsAreOwn(x: Pending, tid: nat, i: nat)
    requires x.Ok() && tid < x.Tickets() && i < |x.OpsOf(tid)|
    ensures |x.OpsOf(tid)| == 20 && x.OpsOf(tid)[i].txn == tid
  {
    MicroOpsAre(x.Records(tid), tid, 10);
    hide MicroOps;
    var ops, a := MicroOps(x.Records(tid), tid, 10), i / 2;
    assert ops[2 * a].txn == tid == ops[2 * a + 1].txn;
    assert i == 2 * a || i == 2 * a + 1;
  }

  lemma {:induction false} MicroJobIsWellFormed(x: Pending, lane: (nat, seq<Row>, nat) -> Word, width: nat -> nat)
    requires x.Ok()
    ensures WellFormed(MicroJob(x, lane, width))
  {
    hide Submitted, TicketOps;
    var j := MicroJob(x, lane, width);
    NothingSubmittedYet(x);
    forall u, v | 0 <= u <= v < |j.start| ensures j.start[u] <= j.start[v] { SubmittedPrefix(x, u, v); }
    forall g | 0 <= g < |j.ops| ensures var u := j.ops[g].unit; u + 1 < |j.start| && j.start[u] <= g < j.start[u + 1] {
      OwnerOf(x, x.Tickets(), g);
    }
  }

  lemma NothingSubmittedYet(x: Pending)
    requires x.Ok()
    ensures Submitted(x, 0) == []
  {}

  // ------------------------------------------------------------------ the plan words

  const PLAN_WORDS: nat := 20

  /** The plans of different tickets do not overlap. */
  ghost predicate PlansApart(base: seq<nat>, size: nat) {
    && (forall s, t | 0 <= s < t < |base| :: base[s] + PLAN_WORDS <= base[t])
    && (forall t | 0 <= t < |base| :: base[t] + PLAN_WORDS <= size)
  }

  lemma {:induction false} OwnWord(x: Pending, g: nat)
    requires x.Ok() && g < |Batch(x)|
    ensures Batch(x)[g].txn < x.Tickets() && Batch(x)[g].offset < PLAN_WORDS
  {
    OwnerOf(x, x.Tickets(), g);
    hide Submitted;
    var u := Batch(x)[g].txn;
    var i := g - |Submitted(x, u)|;
    TicketWords(x, u, if i == 0 then 0 else i - 1, if i == 0 then 1 else i);
  }

  lemma {:induction false} TicketWords(x: Pending, u: nat, i: nat, j: nat)
    requires x.Ok() && u < x.Tickets() && |x.OpsOf(u)| == 20 && i < j < 20
    ensures x.OpsOf(u)[i].offset < PLAN_WORDS && x.OpsOf(u)[j].offset < PLAN_WORDS
    ensures x.OpsOf(u)[i].offset != x.OpsOf(u)[j].offset
  {
    MicroWordsDiffer(x.Records(u), u, i, j);
    if j < 19 { MicroWordsDiffer(x.Records(u), u, j, j + 1); } else { MicroOpsAre(x.Records(u), u, 10); }
  }

  lemma {:induction false} AddressesDiffer(x: Pending, base: seq<nat>, size: nat, g: nat, h: nat)
    requires x.Ok() && |base| == x.Tickets() && PlansApart(base, size) && g < h < |Batch(x)|
    requires Batch(x)[g].txn < |base| && Batch(x)[h].txn < |base|
    ensures Address(base, Batch(x)[g]) != Address(base, Batch(x)[h])
  {
    OwnerOf(x, x.Tickets(), g);
    OwnerOf(x, x.Tickets(), h);
    OwnWord(x, g);
    OwnWord(x, h);
    hide Submitted;
    var u, v := Batch(x)[g].txn, Batch(x)[h].txn;
    if u == v {
      TicketWords(x, u, g - |Submitted(x, u)|, h - |Submitted(x, u)|);
    }
  }

  lemma {:induction false} BatchIsAddressable(x: Pending, base: seq<nat>, size: nat)
    requires x.Ok() && |base| == x.Tickets() && PlansApart(base, size)
    ensures Addressable(base, Batch(x), size) && PlannerKernels.DistinctWords(base, Batch(x), size)
  {
    hide Batch;
    forall g: nat | g < |Batch(x)| ensures Batch(x)[g].txn < |base| && Address(base, Batch(x)[g]) < size {
      OwnWord(x, g);
    }
    hide PlansApart;
    forall g: nat, h: nat | g < h < |Batch(x)| ensures Address(base, Batch(x)[g]) != Address(base, Batch(x)[h]) {
      AddressesDiffer(x, base, size, g, h);
    }
  }

  function PlanWords(x: Pending, base: seq<nat>): (w: seq<nat>)
    requires x.Ok() && forall g: nat | g < |Batch(x)| :: Batch(x)[g].txn < |base|
    ensures |w| == |Batch(x)| && forall g: nat | g < |w| :: w[g] == Address(base, Batch(x)[g])
  {
    seq(|Batch(x)|, g requires 0 <= g < |Batch(x)| => Address(base, Batch(x)[g]))
  }

  lemma {:induction false} BatchIsPlanned(x: Pending, base: seq<nat>, plan: seq<nat>, t: nat)
    requires x.Ok() && Addressable(base, Batch(x), |plan|) && HoldsPlan(base, Batch(x), plan)
    ensures TablePlanned(base, plan, AccessesOfOps(Batch(x)), PlanWords(x, base), t)
  {
    hide Batch;
    var ops, word, batch := AccessesOfOps(Batch(x)), PlanWords(x, base), Batch(x);
    if t == 0 {
      var idx := seq(|ops|, i requires 0 <= i < |ops| => i);
      forall g: nat | g < |ops| ensures g in idx { assert idx[g] == g; }
      assert IsSlice(ops, 0, idx);
      assert BatchOf(base, ops, word, 0, idx, batch);
    } else {
      assert IsSlice(ops, t, []);
      assert BatchOf(base, ops, word, t, [], []);
      NothingToPlan(base, [], plan);
    }
  }

  lemma {:induction false} MicroIsReady(x: Pending, base: seq<nat>, plan: seq<nat>, c: Config)
    requires x.Ok() && Addressable(base, Batch(x), |plan|) && HoldsPlan(base, Batch(x), plan)
    requires c.job == MicroJob(x, c.job.lane, c.job.width) && c.loc == PlannedLocs(plan, PlanWords(x, base))
    requires c.epoch > 0 && HandOff(c.begin, c.epoch)
    ensures Ready(c)
  {
    hide Batch, HoldsPlan, WellFormed, HandOff, TablePlanned, PlanOk;
    MicroJobIsWellFormed(x, c.job.lane, c.job.width);
    forall t: nat ensures TablePlanned(base, plan, AccessesOfOps(Batch(x)), PlanWords(x, base), t) {
      BatchIsPlanned(x, base, plan, t);
    }
    PlansCompose(base, plan, AccessesOfOps(Batch(x)), PlanWords(x, base));
  }

  // ------------------------------------------------------------------ the epoch

  function Parts(x: Pending): (parts: seq<seq<Op>>)
    requires x.Ok()
    ensures |parts| == x.Tickets() && forall u: nat | u < |parts| :: parts[u] == x.OpsOf(u)
  {
    seq(x.Tickets(), u requires 0 <= u < x.Tickets() => x.OpsOf(u))
  }

  lemma {:induction false} PartsAreBatch(x: Pending, n: nat)
    requires x.Ok() && n <= x.Tickets()
    ensures Offsets.Concat(Parts(x), n) == Submitted(x, n)
    decreases n
  {
    hide TicketOps;
    if n > 0 { PartsAreBatch(x, n - 1); }
  }

  /** The first pass: nothing for a transaction that is not retried, twenty accesses for others. */
  method CountOps(x: Pending, numOps: array<nat>)
    requires x.Ok() && x.Tickets() <= numOps.Length
    modifies numOps
    ensures forall u: nat | u < x.Tickets() :: numOps[u] == |Parts(x)[u]|
  {
    hide TicketOps;
    for tid := 0 to x.Tickets()
      invariant forall u: nat | u < tid :: numOps[u] == |Parts(x)[u]|
    {
      CountIsRight(x, tid);
      numOps[tid] := if tid < |x.curr| && !x.retry[tid] then 0 else 20;
    }
  }

  lemma {:induction false} CountIsRight(x: Pending, tid: nat)
    requires x.Ok() && tid < x.Tickets()
    ensures |Parts(x)[tid]| == if tid < |x.curr| && !x.retry[tid] then 0 else 20
  {
    if x.Records(tid) != [] { MicroOpsAre(x.Records(tid), tid, 10); }
  }

  method Submit(x: Pending, numOps: array<nat>, offsets: array<nat>, dest: array<Op>) returns (currNumOps: nat)
    requires x.Ok() && |Batch(x)| <= dest.Length && x.Tickets() <= numOps.Length && x.Tickets() < offsets.Length
    requires numOps != offsets && offsets[0] == 0
    modifies numOps, offsets, dest
    ensures currNumOps == |Batch(x)| && dest[..currNumOps] == Batch(x)
  {
    PartsAreBatch(x, x.Tickets());
    CountOps(x, numOps);
    Offsets.InclusiveSum(Parts(x), numOps, offsets, x.Tickets());
    currNumOps := Offsets.WriteParts(Parts(x), offsets, dest);
  }

  lemma WidthIs(x: Pending, lane: (nat, seq<Row>, nat) -> Word, width: nat -> nat)
    requires x.Ok()
    ensures MicroJob(x, lane, width).width == width && MicroJob(x, lane, width).lane == lane
  {
    hide Batch;
  }

  /** Submits and plans an epoch, and starts the kernel for its tickets. */
  method PlanEpoch(x: Pending, planner: GpuTableExecutionPlanner, base: seq<nat>, plan: array<nat>, device: Device,
                   epoch: nat, lane: (nat, seq<Row>, nat) -> Word, width: nat -> nat) returns (c: Config)
    requires x.Ok() && planner.Valid() && |Batch(x)| <= planner.maxNumOps && |Batch(x)| < WORD
    requires |base| == x.Tickets() && PlansApart(base, plan.Length)
    requires plan !in {planner.writeOpsBefore, planner.writeOpsAfter, planner.tverWriteOpsBefore}
    requires epoch > 0 && HandOff(device.Mem(), epoch)
    modifies plan, device, planner`currNumOps, planner.submittedOps, planner.sortedOps
    modifies planner.writeOpsBefore, planner.writeOpsAfter, planner.rwOpsType, planner.tverWriteOpsBefore
    ensures planner.Valid() && Ready(c) && device.Now() == Initial(c)
    ensures c.job == MicroJob(x, lane, width) && c.epoch == epoch && c.begin == old(device.Mem())
  {
    hide Batch, HandOff, PlansApart, Ready;
    BatchIsAddressable(x, base, plan.Length);
    var numOps, offsets := new nat[x.Tickets()], new nat[x.Tickets() + 1](_ => 0);
    var n := Submit(x, numOps, offsets, planner.submittedOps);
    planner.currNumOps := n;
    planner.InitializeExecutionPlan(plan, base);
    var job := MicroJob(x, lane, width);
    c := Config(job, PlannedLocs(plan[..], PlanWords(x, base)), epoch, device.Mem());
    MicroIsReady(x, base, plan[..], c);
    device.Launch(job);
  }

  /** One epoch: however the warps are interleaved, memory ends up as if the tickets had been run
      one after the other. */
  method RunEpoch(x: Pending, planner: GpuTableExecutionPlanner, base: seq<nat>, plan: array<nat>, device: Device,
                  epoch: nat, lane: (nat, seq<Row>, nat) -> Word, width: nat -> nat)
    requires x.Ok() && planner.Valid() && |Batch(x)| <= planner.maxNumOps && |Batch(x)| < WORD
    requires |base| == x.Tickets() && PlansApart(base, plan.Length)
    requires plan !in {planner.writeOpsBefore, planner.writeOpsAfter, planner.tverWriteOpsBefore}
    requires epoch > 0 && HandOff(device.Mem(), epoch)
    modifies plan, device, planner`currNumOps, planner.submittedOps, planner.sortedOps
    modifies planner.writeOpsBefore, planner.writeOpsAfter, planner.rwOpsType, planner.tverWriteOpsBefore
    ensures planner.Valid() && HandOff(device.Mem(), epoch + 1) && WellFormed(MicroJob(x, lane, width))
    ensures forall k :: Contents(device.Mem(), width)(k) ==
                        SerialResult(MicroJob(x, lane, width), Contents(old(device.Mem()), width))(k)
  {
    hide Batch, HandOff, PlansApart, Ready, MicroJob;
    MicroJobIsWellFormed(x, lane, width);
    WidthIs(x, lane, width);
    var c := PlanEpoch(x, planner, base, plan, device, epoch, lane, width);
    device.Execute(c);
  }
}
