/** The micro benchmark's loop over the epochs.  Two buffers take turns in holding an epoch's
    transactions and their retry flags. */
module MicroRun {
  import opened Accesses
  import opened DeviceExecution
  import opened Execution
  import opened Machine
  import opened MicroEpoch
  import opened PlannerKernels
  import opened Progress
  import opened Retry
  import opened SerialEquivalence
  import Epochs

  // ------------------------------------------------------------------ the serial meaning

  /** What indexing makes of a transaction. */
  function Indexed(txn: MicroTxn, recordOf: nat -> nat): (t: MicroTxnParams)
    ensures |t.recordIds| == |txn.keys| && t.abort == txn.abort
    ensures forall i: nat | i < |txn.keys| :: t.recordIds[i] == recordOf(txn.keys[i])
  {
    MicroTxnParams(seq(|txn.keys|, i requires 0 <= i < |txn.keys| => recordOf(txn.keys[i])), txn.abort)
  }

  /** Transaction t of the previous batch is retried in epoch e. */
  ghost predicate IsRetried(batches: seq<seq<MicroTxn>>, n: nat, e: nat, t: nat)
    requires BatchesOk(batches, n) && 1 <= e <= |batches| && t < n
  {
    e >= 2 && batches[e - 2][t].abort
  }

  /** x is what epoch e has to run: the aborted transactions of the previous batch, and its own. */
  ghost predicate IsPending(x: Pending, batches: seq<seq<MicroTxn>>, n: nat, recordOf: nat -> nat, e: nat)
    requires BatchesOk(batches, n) && 1 <= e <= |batches|
  {
    && |x.prev| == |x.retry| == |x.curr| == n
    && (forall t: nat | t < n :: x.retry[t] == IsRetried(batches, n, e, t))
    && (forall t: nat | t < n && IsRetried(batches, n, e, t) :: x.prev[t] == Indexed(batches[e - 2][t], recordOf))
    && (forall t: nat | t < n :: x.curr[t] == Indexed(batches[e - 1][t], recordOf))
  }

  ghost function PendingIn(batches: seq<seq<MicroTxn>>, n: nat, recordOf: nat -> nat, e: nat): (x: Pending)
    requires BatchesOk(batches, n) && 1 <= e <= |batches|
    ensures IsPending(x, batches, n, recordOf, e) && x.Ok()
  {
    Pending(
      seq(n, t requires 0 <= t < n =>
        if IsRetried(batches, n, e, t) then Indexed(batches[e - 2][t], recordOf) else MicroTxnParams([], false)),
      seq(n, t requires 0 <= t < n => IsRetried(batches, n, e, t)),
      seq(n, t requires 0 <= t < n => Indexed(batches[e - 1][t], recordOf)))
  }

  /** What the warps of epoch e compute. */
  type Lanes = nat -> (nat, seq<Row>, nat) -> Word

  /** The database after e epochs, each of which runs the retried transactions of the previous batch
      and then its own, one after the other. */
  ghost function SerialMicro(batches: seq<seq<MicroTxn>>, n: nat, recordOf: nat -> nat, lanes: Lanes,
                             width: nat -> nat, db: Database, e: nat): Database
    requires BatchesOk(batches, n) && e <= |batches|
  {
    if e == 0 then db
    else
      MicroJobIsWellFormed(PendingIn(batches, n, recordOf, e), lanes(e), width);
      SerialResult(MicroJob(PendingIn(batches, n, recordOf, e), lanes(e), width),
        SerialMicro(batches, n, recordOf, lanes, width, db, e - 1))
  }

  /** From was to now memory has gone through epoch e as in the serial run. */
  ghost predicate RanSerially(was: Memory, now: Memory, batches: seq<seq<MicroTxn>>, n: nat, recordOf: nat -> nat,
                              lanes: Lanes, width: nat -> nat, e: nat)
    requires BatchesOk(batches, n) && 1 <= e <= |batches|
  {
    var job := MicroJob(PendingIn(batches, n, recordOf, e), lanes(e), width);
    WellFormed(job) && forall k :: Contents(now, width)(k) == SerialResult(job, Contents(was, width))(k)
  }

  lemma {:induction false} PendingIsOk(x: Pending, batches: seq<seq<MicroTxn>>, n: nat, recordOf: nat -> nat, e: nat)
    requires BatchesOk(batches, n) && 1 <= e <= |batches| && IsPending(x, batches, n, recordOf, e)
    ensures x.Ok()
  {}

  lemma {:induction false} SameSubmitted(x: Pending, y: Pending, batches: seq<seq<MicroTxn>>, n: nat,
                                         recordOf: nat -> nat, e: nat, m: nat)
    requires BatchesOk(batches, n) && 1 <= e <= |batches| && x.Ok() && y.Ok() && m <= 2 * n
    requires IsPending(x, batches, n, recordOf, e) && IsPending(y, batches, n, recordOf, e)
    ensures Submitted(x, m) == Submitted(y, m)
    decreases m
  {
    hide MicroOps;
    if m > 0 {
      SameSubmitted(x, y, batches, n, recordOf, e, m - 1);
      if m - 1 < n && IsRetried(batches, n, e, m - 1) { assert x.prev[m - 1] == y.prev[m - 1]; }
      assert m - 1 >= n ==> x.curr[m - 1 - n] == y.curr[m - 1 - n];
    }
  }

  lemma {:induction false} SameJob(x: Pending, y: Pending, batches: seq<seq<MicroTxn>>, n: nat, recordOf: nat -> nat,
                                   e: nat, lane: (nat, seq<Row>, nat) -> Word, width: nat -> nat)
    requires BatchesOk(batches, n) && 1 <= e <= |batches| && x.Ok() && y.Ok()
    requires IsPending(x, batches, n, recordOf, e) && IsPending(y, batches, n, recordOf, e)
    ensures MicroJob(x, lane, width) == MicroJob(y, lane, width)
  {
    forall m: nat | m <= 2 * n ensures Submitted(x, m) == Submitted(y, m) {
      SameSubmitted(x, y, batches, n, recordOf, e, m);
    }
    hide Submitted, IsPending, BatchesOk;
    assert Starts(x) == Starts(y);
  }

  lemma BatchSize(batches: seq<seq<MicroTxn>>, n: nat, e: nat)
    requires BatchesOk(batches, n) && 1 <= e <= |batches|
    ensures |batches[e - 1]| == n && (e >= 2 ==> |batches[e - 2]| == n)
  {}

  // ------------------------------------------------------------------ what has run

  /** What those of the first m tickets have run that are finished. */
  ghost function Ran(c: Config, s: State, batches: seq<seq<MicroTxn>>, n: nat, e: nat, m: nat): multiset<Retry.Run>
    requires BatchesOk(batches, n) && 1 <= e <= |batches| && m <= 2 * n == |s.units| && |c.job.start| == |s.units| + 1
  {
    if m == 0 then multiset{}
    else Ran(c, s, batches, n, e, m - 1)
         + if UnitFinished(c, s, m - 1) then multiset(TicketRun(batches, n, e, m - 1)) else multiset{}
  }

  lemma {:induction false} SameRan(c: Config, s: State, s': State, batches: seq<seq<MicroTxn>>, n: nat, e: nat, m: nat)
    requires BatchesOk(batches, n) && 1 <= e <= |batches|
    requires m <= 2 * n == |s.units| == |s'.units| && |c.job.start| == |s.units| + 1
    requires forall u: nat | u < m :: UnitFinished(c, s', u) <==> UnitFinished(c, s, u)
    ensures Ran(c, s', batches, n, e, m) == Ran(c, s, batches, n, e, m)
    decreases m
  {
    hide BatchesOk, TicketRun, UnitFinished;
    if m > 0 { SameRan(c, s, s', batches, n, e, m - 1); }
  }

  lemma {:induction false} OneMoreRan(c: Config, s: State, s': State, batches: seq<seq<MicroTxn>>, n: nat, e: nat,
                                      m: nat, u: nat)
    requires BatchesOk(batches, n) && 1 <= e <= |batches|
    requires u < m <= 2 * n == |s.units| == |s'.units| && |c.job.start| == |s.units| + 1
    requires !UnitFinished(c, s, u) && UnitFinished(c, s', u)
    requires forall v: nat | v < m && v != u :: UnitFinished(c, s', v) <==> UnitFinished(c, s, v)
    ensures Ran(c, s', batches, n, e, m) == Ran(c, s, batches, n, e, m) + multiset(TicketRun(batches, n, e, u))
    decreases m
  {
    hide BatchesOk, TicketRun, UnitFinished;
    if u == m - 1 {
      SameRan(c, s, s', batches, n, e, m - 1);
    } else {
      OneMoreRan(c, s, s', batches, n, e, m - 1, u);
    }
  }

  lemma {:induction false} AllRan(c: Config, s: State, batches: seq<seq<MicroTxn>>, n: nat, e: nat, m: nat)
    requires BatchesOk(batches, n) && 1 <= e <= |batches| && m <= 2 * n == |s.units| && |c.job.start| == |s.units| + 1
    requires Finished(c, s)
    ensures Ran(c, s, batches, n, e, m) == multiset(RunsOf(batches, n, e, m))
    decreases m
  {
    hide BatchesOk, TicketRun;
    if m > 0 { AllRan(c, s, batches, n, e, m - 1); }
  }

  lemma {:induction false} NoneRan(c: Config, s: State, batches: seq<seq<MicroTxn>>, n: nat, e: nat, m: nat)
    requires BatchesOk(batches, n) && 1 <= e <= |batches| && m <= 2 * n == |s.units| && |c.job.start| == |s.units| + 1
    requires forall u: nat | u < m && UnitFinished(c, s, u) :: TicketRun(batches, n, e, u) == []
    ensures Ran(c, s, batches, n, e, m) == multiset{}
    decreases m
  {
    hide BatchesOk, TicketRun, UnitFinished;
    if m > 0 { NoneRan(c, s, batches, n, e, m - 1); }
  }

  /** A ticket has accesses to make exactly when it runs something. */
  lemma {:induction false} TicketWorks(x: Pending, batches: seq<seq<MicroTxn>>, n: nat, recordOf: nat -> nat, e: nat,
                                       lane: (nat, seq<Row>, nat) -> Word, width: nat -> nat, u: nat)
    requires BatchesOk(batches, n) && 1 <= e <= |batches| && u < 2 * n
    requires x.Ok() && IsPending(x, batches, n, recordOf, e)
    ensures x.Tickets() == 2 * n && |MicroJob(x, lane, width).start| == 2 * n + 1
    ensures MicroJob(x, lane, width).start[u] < MicroJob(x, lane, width).start[u + 1]
            <==> TicketRun(batches, n, e, u) != []
    ensures TicketRun(batches, n, e, u) != [] ==>
              TicketRun(batches, n, e, u) == [Retry.Run(e, if u < n then e - 1 else e, if u < n then u else u - n)]
  {
    hide Submitted, BatchesOk, TicketOps, TicketRun;
    CountIsRight(x, u);
    StartsNext(x, u);
    RunsIfRetried(batches, n, e, u);
  }

  lemma RunsIfRetried(batches: seq<seq<MicroTxn>>, n: nat, e: nat, u: nat)
    requires BatchesOk(batches, n) && 1 <= e <= |batches| && u < 2 * n
    ensures TicketRun(batches, n, e, u) ==
            if u < n && !IsRetried(batches, n, e, u) then []
            else [Retry.Run(e, if u < n then e - 1 else e, if u < n then u else u - n)]
  {}

  lemma StartsNext(x: Pending, u: nat)
    requires x.Ok() && u < x.Tickets()
    ensures Starts(x)[u + 1] == Starts(x)[u] + |Parts(x)[u]|
  {
    hide TicketOps;
  }

  lemma {:induction false} KernelBegins(c: Config, x: Pending, batches: seq<seq<MicroTxn>>, n: nat,
                                        recordOf: nat -> nat, e: nat)
    requires BatchesOk(batches, n) && 1 <= e <= |batches| && x.Ok() && IsPending(x, batches, n, recordOf, e)
    requires Ready(c) && c.job == MicroJob(x, c.job.lane, c.job.width)
    ensures |c.job.start| == 2 * n + 1 && |Initial(c).units| == 2 * n
    ensures Inv(c, Initial(c)) && PcsInRange(c, Initial(c)) && TotalLeft(c, Initial(c)) >= 0
    ensures Ran(c, Initial(c), batches, n, e, 2 * n) == multiset{}
    ensures forall u: nat | u < 2 * n && UnitFinished(c, Initial(c), u) :: u < n
  {
    hide MicroJob, IsPending, BatchesOk, TicketRun, Inv, TotalLeft, PcsInRange;
    InitialInv(c);
    TotalIsNatural(c, Initial(c));
    PendingSize(x, batches, n, recordOf, e);
    JobSize(x, c.job.lane, c.job.width);
    hide Ready;
    forall u: nat | u < 2 * n && UnitFinished(c, Initial(c), u) ensures TicketRun(batches, n, e, u) == [] && u < n {
      TicketWorks(x, batches, n, recordOf, e, c.job.lane, c.job.width, u);
      CurrentRuns(batches, n, e, u);
      StartsGrow(x, c.job.lane, c.job.width, u);
    }
    NoneRan(c, Initial(c), batches, n, e, 2 * n);
  }

  lemma PendingSize(x: Pending, batches: seq<seq<MicroTxn>>, n: nat, recordOf: nat -> nat, e: nat)
    requires BatchesOk(batches, n) && 1 <= e <= |batches| && IsPending(x, batches, n, recordOf, e)
    ensures |x.curr| == n
  {}

  lemma JobSize(x: Pending, lane: (nat, seq<Row>, nat) -> Word, width: nat -> nat)
    requires x.Ok()
    ensures |MicroJob(x, lane, width).start| == x.Tickets() + 1
  {
    hide Submitted;
  }

  lemma StartsGrow(x: Pending, lane: (nat, seq<Row>, nat) -> Word, width: nat -> nat, u: nat)
    requires x.Ok() && u < x.Tickets()
    ensures MicroJob(x, lane, width).start[u] <= MicroJob(x, lane, width).start[u + 1]
  {
    StartsNext(x, u);
    hide Submitted;
  }

  lemma CurrentRuns(batches: seq<seq<MicroTxn>>, n: nat, e: nat, u: nat)
    requires BatchesOk(batches, n) && 1 <= e <= |batches| && u < 2 * n
    ensures TicketRun(batches, n, e, u) == [] ==> u < n
  {}

  /** What a step does to the tickets. */
  lemma {:induction false} OneMoreStep(c: Config, s: State, u: nat)
    requires Ready(c) && Inv(c, s) && PcsInRange(c, s) && |c.job.start| == |s.units| + 1 && u < |s.units|
    requires |c.loc| == |c.job.ops| && Moves(c, s, u)
    ensures var s' := Step(c, s, u);
            && |s'.units| == |s.units| && Inv(c, s') && PcsInRange(c, s') && 0 <= TotalLeft(c, s') < TotalLeft(c, s)
            && !UnitFinished(c, s, u)
            && forall v: nat | v < |s.units| && v != u :: UnitFinished(c, s', v) <==> UnitFinished(c, s, v)
  {
    hide Ready, Inv, TotalLeft, PcsInRange, WellFormed, PlanOk;
    StepKeepsInv(c, s, u);
    TotalShrinks(c, s, u);
    TotalIsNatural(c, Step(c, s, u));
  }

  /** A ticket that moves runs something. */
  lemma {:induction false} TicketMoves(c: Config, x: Pending, batches: seq<seq<MicroTxn>>, n: nat,
                                       recordOf: nat -> nat, e: nat, s: State, u: nat)
    requires BatchesOk(batches, n) && 1 <= e <= |batches| && x.Ok() && IsPending(x, batches, n, recordOf, e)
    requires Ready(c) && Inv(c, s) && c.job == MicroJob(x, c.job.lane, c.job.width)
    requires |c.job.start| == |s.units| + 1 && |s.units| == 2 * n && u < |s.units| && Moves(c, s, u)
    ensures TicketRun(batches, n, e, u) == [Retry.Run(e, if u < n then e - 1 else e, if u < n then u else u - n)]
    ensures u < n ==> e >= 2
  {
    hide MicroJob, IsPending, BatchesOk, Inv;
    UnitBegan(c, s, u);
    TicketWorks(x, batches, n, recordOf, e, c.job.lane, c.job.width, u);
    RetriedLater(batches, n, e, u);
  }

  lemma UnitBegan(c: Config, s: State, u: nat)
    requires Ready(c) && Inv(c, s) && u < |s.units|
    ensures |c.job.start| == |s.units| + 1 && c.job.start[u] <= s.units[u].pc
  {
    assert UnitOk(c, s, u);
  }

  lemma RetriedLater(batches: seq<seq<MicroTxn>>, n: nat, e: nat, u: nat)
    requires BatchesOk(batches, n) && 1 <= e <= |batches| && u < 2 * n
    ensures TicketRun(batches, n, e, u) != [] && u < n ==> e >= 2
  {}

  /** Where no ticket can move, all have run, and memory is the serial one. */
  lemma {:induction false} KernelEnds(c: Config, s: State, batches: seq<seq<MicroTxn>>, n: nat, e: nat)
    requires BatchesOk(batches, n) && 1 <= e <= |batches|
    requires Ready(c) && Inv(c, s) && |s.units| == 2 * n && |c.job.start| == |s.units| + 1
    requires forall u: nat | u < |s.units| :: !Moves(c, s, u)
    ensures Finished(c, s) && HandOff(s.mem, c.epoch + 1)
    ensures forall u: nat | u < 2 * n :: UnitFinished(c, s, u)
    ensures forall k :: Contents(s.mem, c.job.width)(k) == SerialResult(c.job, Db(c))(k)
    ensures Ran(c, s, batches, n, e, 2 * n) == multiset(RunsOf(batches, n, e, 2 * n))
  {
    hide WellFormed, PlanOk, HandOff, Inv, BatchesOk, RunsOf, Ran, Moves;
    MovesUntilFinished(c, s);
    AllRan(c, s, batches, n, e, 2 * n);
    FinalHandOff(c, s);
    forall k ensures Contents(s.mem, c.job.width)(k) == SerialResult(c.job, Db(c))(k) {
      FinalContents(c, s, k);
    }
  }

  lemma {:induction false} IsSerialEpoch(x: Pending, batches: seq<seq<MicroTxn>>, n: nat, recordOf: nat -> nat,
                                         lanes: Lanes, width: nat -> nat, e: nat, c: Config, now: Memory)
    requires BatchesOk(batches, n) && 1 <= e <= |batches| && x.Ok() && IsPending(x, batches, n, recordOf, e)
    requires Ready(c) && c.job == MicroJob(x, lanes(e), width) && c.job.width == width
    requires forall k :: Contents(now, width)(k) == SerialResult(c.job, Db(c))(k)
    ensures RanSerially(c.begin, now, batches, n, recordOf, lanes, width, e)
  {
    hide MicroJob, IsPending, BatchesOk, PendingIn, Contents, SerialResult, WellFormed;
    SameJob(x, PendingIn(batches, n, recordOf, e), batches, n, recordOf, e, lanes(e), width);
  }

  // ------------------------------------------------------------------ the buffers

  class EpochTxnData {
    var indexInput: seq<MicroTxn>
    const params: array<MicroTxnParams>
    const retry: array<bool>

    constructor (n: nat)
      ensures fresh(params) && fresh(retry) && params.Length == retry.Length == n && indexInput == []
      ensures Clear()
    {
      params := new MicroTxnParams[n](_ => MicroTxnParams([], false));
      retry := new bool[n](_ => false);
      indexInput := [];
    }

    ghost predicate Clear()
      reads retry
    {
      forall t: nat | t < retry.Length :: !retry[t]
    }

    /** The buffer holds a batch that has been executed once: its flags are the batch's. */
    ghost predicate Holds(batch: seq<MicroTxn>)
      reads this, params, retry
    {
      && indexInput == batch && |batch| == params.Length == retry.Length
      && forall t: nat | t < |batch| :: retry[t] == batch[t].abort
    }
  }

  class MicroBenchmark {
    const numTxns: nat
    const data0: EpochTxnData
    const data1: EpochTxnData
    ghost var log: seq<Retry.Run>

    function Data(idx: nat): EpochTxnData { if idx % 2 == 0 then data0 else data1 }

    ghost predicate Valid()
      reads data0, data1
    {
      && data0 != data1 && data0.params != data1.params && data0.retry != data1.retry
      && data0.params.Length == data0.retry.Length == numTxns
      && data1.params.Length == data1.retry.Length == numTxns
    }

    constructor (numTxns: nat)
      ensures Valid() && this.numTxns == numTxns && log == []
      ensures fresh(data0) && fresh(data1) && fresh(data0.params) && fresh(data1.params) && fresh(data0.retry)
              && fresh(data1.retry)
      ensures data0.Clear()
    {
      this.numTxns := numTxns;
      data0 := new EpochTxnData(numTxns);
      data1 := new EpochTxnData(numTxns);
      log := [];
    }

    /** Before epoch e the previous buffer holds the batch of epoch e - 1; before the first epoch
        its flags are all clear. */
    ghost predicate Before(batches: seq<seq<MicroTxn>>, e: nat)
      requires 1 <= e <= |batches| + 1
      reads this, data0, data1, data0.params, data1.params, data0.retry, data1.retry
    {
      && Valid()
      && (e == 1 ==> Data(e + 1).Clear())
      && (e >= 2 ==> Data(e + 1).Holds(batches[e - 2]))
    }

    /** Looks up the records of the retried and the current transactions. */
    method IndexTxns(prev: EpochTxnData, curr: EpochTxnData, recordOf: nat -> nat)
      requires Valid() && {prev, curr} == {data0, data1} && prev != curr && |curr.indexInput| == numTxns
      requires forall t: nat | t < numTxns && prev.retry[t] :: t < |prev.indexInput|
      modifies prev.params, curr.params
      ensures forall t: nat | t < numTxns :: curr.params[t] == Indexed(curr.indexInput[t], recordOf)
      ensures forall t: nat | t < numTxns && prev.retry[t] :: prev.params[t] == Indexed(prev.indexInput[t], recordOf)
    {
      for tid := 0 to 2 * numTxns
        invariant forall t: nat | t < numTxns && Ticket(t) < tid ::
                  curr.params[t] == Indexed(curr.indexInput[t], recordOf)
        invariant forall t: nat | t < numTxns && t < tid && prev.retry[t] ::
                  prev.params[t] == Indexed(prev.indexInput[t], recordOf)
      {
        var isPrev := tid < numTxns;
        if !(isPrev && !prev.retry[tid]) {
          var tidInEpoch := if isPrev then tid else tid - numTxns;
          if isPrev {
            prev.params[tidInEpoch] := Indexed(prev.indexInput[tidInEpoch], recordOf);
          } else {
            curr.params[tidInEpoch] := Indexed(curr.indexInput[tidInEpoch], recordOf);
          }
        }
      }
    }

    /** The ticket of the current batch's transaction t. */
    function Ticket(t: nat): nat { numTxns + t }

    /** Indexes the transactions of an epoch; the kernels after that get them as x. */
    method Prepare(prev: EpochTxnData, curr: EpochTxnData, batches: seq<seq<MicroTxn>>, epochId: nat,
                   recordOf: nat -> nat) returns (x: Pending)
      requires BatchesOk(batches, numTxns) && 1 <= epochId <= |batches| && Before(batches, epochId)
      requires prev == Data(epochId + 1) && curr == Data(epochId)
      modifies curr, prev.params, curr.params
      ensures Valid() && IsPending(x, batches, numTxns, recordOf, epochId)
      ensures forall t: nat | t < numTxns :: prev.retry[t] == (epochId >= 2 && batches[epochId - 2][t].abort)
      ensures forall t: nat | t < numTxns :: curr.params[t].abort == batches[epochId - 1][t].abort
      ensures curr.indexInput == batches[epochId - 1]
    {
      curr.indexInput := batches[epochId - 1];
      IndexTxns(prev, curr, recordOf);
      x := Pending(prev.params[..], prev.retry[..], curr.params[..]);
    }

    /** The planner has room for an epoch, and the plans of the tickets lie in plan. */
    ghost predicate HasRoom(planner: GpuTableExecutionPlanner, base: seq<nat>, plan: array<nat>)
      reads planner
    {
      && planner.Valid() && 40 * numTxns <= planner.maxNumOps && 40 * numTxns < WORD
      && |base| == 2 * numTxns && PlansApart(base, plan.Length)
      && plan !in {planner.writeOpsBefore, planner.writeOpsAfter, planner.tverWriteOpsBefore}
    }

    /** What the end of a ticket leaves behind. */
    method EndTicket(curr: EpochTxnData, epochId: nat, warpTxnId: nat)
      requires curr.params.Length == curr.retry.Length == numTxns && warpTxnId < 2 * numTxns && epochId >= 1
      modifies this`log, curr.retry
      ensures log == old(log) + [Retry.Run(epochId, if warpTxnId < numTxns then epochId - 1 else epochId,
                                           if warpTxnId < numTxns then warpTxnId else warpTxnId - numTxns)]
      ensures forall t: nat | t < numTxns :: curr.retry[t] ==
                if warpTxnId == numTxns + t then curr.params[t].abort else old(curr.retry[t])
    {
      var isPrev := warpTxnId < numTxns;
      var tidInEpoch := if isPrev then warpTxnId else warpTxnId - numTxns;
      log := log + [Retry.Run(epochId, if isPrev then epochId - 1 else epochId, tidInEpoch)];
      if !isPrev {
        curr.retry[tidInEpoch] := curr.params[tidInEpoch].abort;
      }
    }

    /** One step of the warp that has a ticket.  A ticket that has made its last access has run, and if
        it is of the current batch it sets its retry flag. */
    method StepTicket(c: Config, ghost x: Pending, curr: EpochTxnData, ghost batches: seq<seq<MicroTxn>>, epochId: nat,
                      ghost recordOf: nat -> nat, device: Device, warpTxnId: nat)
      requires curr.params.Length == curr.retry.Length == numTxns
      requires BatchesOk(batches, numTxns) && 1 <= epochId <= |batches|
      requires x.Ok() && IsPending(x, batches, numTxns, recordOf, epochId)
      requires Ready(c) && c.job == MicroJob(x, c.job.lane, c.job.width)
      requires |device.units| == 2 * numTxns && |c.job.start| == |device.units| + 1 && warpTxnId < 2 * numTxns
      requires Inv(c, device.Now()) && PcsInRange(c, device.Now()) && Moves(c, device.Now(), warpTxnId)
      modifies this`log, curr.retry, device
      ensures |device.units| == 2 * numTxns && Inv(c, device.Now()) && PcsInRange(c, device.Now())
      ensures 0 <= TotalLeft(c, device.Now()) < TotalLeft(c, old(device.Now()))
      ensures forall m: multiset<Retry.Run> | multiset(old(log)) ==
                m + Ran(c, old(device.Now()), batches, numTxns, epochId, 2 * numTxns) ::
                multiset(log) == m + Ran(c, device.Now(), batches, numTxns, epochId, 2 * numTxns)
      ensures forall t: nat | t < numTxns :: curr.retry[t] ==
                if warpTxnId == numTxns + t && UnitFinished(c, device.Now(), warpTxnId) then curr.params[t].abort
                else old(curr.retry[t])
      ensures forall u: nat | u < 2 * numTxns && u != warpTxnId ::
                UnitFinished(c, device.Now(), u) <==> UnitFinished(c, old(device.Now()), u)
    {
      hide Ready, Inv, TotalLeft, PcsInRange, Moves, MicroJob, IsPending, BatchesOk, TicketRun, Ran, Step;
      Shape(c);
      ghost var s := device.Now();
      StepIsAllowed(c, s, warpTxnId);
      device.StepUnit(c, warpTxnId);
      OneMoreStep(c, s, warpTxnId);
      TicketMoves(c, x, batches, numTxns, recordOf, epochId, s, warpTxnId);
      if device.units[warpTxnId].pc == c.job.start[warpTxnId + 1] {
        OneMoreRan(c, s, device.Now(), batches, numTxns, epochId, 2 * numTxns, warpTxnId);
        EndTicket(curr, epochId, warpTxnId);
      } else {
        SameRan(c, s, device.Now(), batches, numTxns, epochId, 2 * numTxns);
      }
    }

    /** Executes the retried transactions of the previous batch and all of the current one, their
        tickets interleaved in any way. */
    method MicroExec(c: Config, x: Pending, prev: EpochTxnData, curr: EpochTxnData,
                     ghost batches: seq<seq<MicroTxn>>, epochId: nat, ghost recordOf: nat -> nat, device: Device)
      requires Valid() && {prev, curr} == {data0, data1} && prev != curr
      requires BatchesOk(batches, numTxns) && 1 <= epochId <= |batches|
      requires x.Ok() && IsPending(x, batches, numTxns, recordOf, epochId)
      requires Ready(c) && c.job == MicroJob(x, c.job.lane, c.job.width) && device.Now() == Initial(c)
      requires forall t: nat | t < numTxns :: curr.params[t].abort == batches[epochId - 1][t].abort
      modifies this`log, curr.retry, device
      ensures HandOff(device.Mem(), c.epoch + 1)
      ensures forall k :: Contents(device.Mem(), c.job.width)(k) == SerialResult(c.job, Db(c))(k)
      ensures multiset(log) == multiset(old(log)) + multiset(RunsOf(batches, numTxns, epochId, 2 * numTxns))
      ensures forall t: nat | t < numTxns :: curr.retry[t] == batches[epochId - 1][t].abort
    {
      hide Ready, Inv, TotalLeft, PcsInRange, Moves, MicroJob, IsPending, BatchesOk, RunsOf, Ran;
      hide Contents, HandOff, SerialResult, UnitFinished;
      BatchSize(batches, numTxns, epochId);
      Shape(c);
      KernelBegins(c, x, batches, numTxns, recordOf, epochId);
      while exists u: nat :: u < |device.units| && Moves(c, device.Now(), u)
        invariant |device.units| == 2 * numTxns && |c.job.start| == |device.units| + 1
        invariant Inv(c, device.Now()) && PcsInRange(c, device.Now()) && TotalLeft(c, device.Now()) >= 0
        invariant multiset(log) == multiset(old(log)) + Ran(c, device.Now(), batches, numTxns, epochId, 2 * numTxns)
        invariant forall t: nat | t < numTxns && UnitFinished(c, device.Now(), Ticket(t)) ::
                    curr.retry[t] == batches[epochId - 1][t].abort
        decreases TotalLeft(c, device.Now())
      {
        var warpTxnId: nat :| warpTxnId < |device.units| && Moves(c, device.Now(), warpTxnId);
        StepTicket(c, x, curr, batches, epochId, recordOf, device, warpTxnId);
      }
      KernelEnds(c, device.Now(), batches, numTxns, epochId);
    }

    /** Submission, planning and execution of what is pending. */
    method ExecutePending(x: Pending, prev: EpochTxnData, curr: EpochTxnData, ghost batches: seq<seq<MicroTxn>>,
                          epochId: nat, ghost recordOf: nat -> nat, planner: GpuTableExecutionPlanner, base: seq<nat>,
                          plan: array<nat>, device: Device, lanes: Lanes, width: nat -> nat)
      requires Valid() && {prev, curr} == {data0, data1} && prev != curr
      requires BatchesOk(batches, numTxns) && 1 <= epochId <= |batches|
      requires IsPending(x, batches, numTxns, recordOf, epochId)
      requires forall t: nat | t < numTxns :: curr.params[t].abort == batches[epochId - 1][t].abort
      requires HasRoom(planner, base, plan) && HandOff(device.Mem(), epochId)
      modifies this`log, curr.retry, plan, device, planner`currNumOps, planner.submittedOps, planner.sortedOps
      modifies planner.writeOpsBefore, planner.writeOpsAfter, planner.rwOpsType, planner.tverWriteOpsBefore
      ensures HasRoom(planner, base, plan) && HandOff(device.Mem(), epochId + 1)
      ensures RanSerially(old(device.Mem()), device.Mem(), batches, numTxns, recordOf, lanes, width, epochId)
      ensures multiset(log) == multiset(old(log)) + multiset(RunsOf(batches, numTxns, epochId, 2 * numTxns))
      ensures forall t: nat | t < numTxns :: curr.retry[t] == batches[epochId - 1][t].abort
    {
      hide Submitted, IsPending, PendingIn, HandOff, PlansApart, BatchesOk, Ready, RunsOf, MicroJob, RanSerially;
      PendingIsOk(x, batches, numTxns, recordOf, epochId);
      PendingSize(x, batches, numTxns, recordOf, epochId);
      BatchFits(x, x.Tickets());
      WidthIs(x, lanes(epochId), width);
      var c := PlanEpoch(x, planner, base, plan, device, epochId, lanes(epochId), width);
      MicroExec(c, x, prev, curr, batches, epochId, recordOf, device);
      IsSerialEpoch(x, batches, numTxns, recordOf, lanes, width, epochId, c, device.Mem());
    }

    /** One epoch: index, submit, plan and execute. */
    method RunEpoch(batches: seq<seq<MicroTxn>>, epochId: nat, recordOf: nat -> nat, planner: GpuTableExecutionPlanner,
                    base: seq<nat>, plan: array<nat>, device: Device, lanes: Lanes, width: nat -> nat)
      requires BatchesOk(batches, numTxns) && 1 <= epochId <= |batches| && Before(batches, epochId)
      requires HasRoom(planner, base, plan) && HandOff(device.Mem(), epochId)
      modifies this`log, data0, data1, data0.params, data1.params, data0.retry, data1.retry
      modifies plan, device, planner`currNumOps, planner.submittedOps, planner.sortedOps
      modifies planner.writeOpsBefore, planner.writeOpsAfter, planner.rwOpsType, planner.tverWriteOpsBefore
      ensures Before(batches, epochId + 1)
      ensures multiset(log) == multiset(old(log)) + multiset(RunsOf(batches, numTxns, epochId, 2 * numTxns))
      ensures HasRoom(planner, base, plan) && HandOff(device.Mem(), epochId + 1)
      ensures RanSerially(old(device.Mem()), device.Mem(), batches, numTxns, recordOf, lanes, width, epochId)
    {
      hide HandOff, PlansApart, RanSerially, IsPending, RunsOf, BatchesOk, GpuTableExecutionPlanner.Valid;
      BatchSize(batches, numTxns, epochId);
      var prev, curr := Data(epochId + 1), Data(epochId);
      var x := Prepare(prev, curr, batches, epochId, recordOf);
      ExecutePending(x, prev, curr, batches, epochId, recordOf, planner, base, plan, device, lanes, width);
    }

    /** The whole run: every transaction runs as often as it should, and memory ends up as if, epoch by
        epoch, the retried transactions of the previous batch and then the batch itself had been run
        one after the other. */
    method RunBenchmark(batches: seq<seq<MicroTxn>>, recordOf: nat -> nat, planner: GpuTableExecutionPlanner,
                        base: seq<nat>, plan: array<nat>, device: Device, lanes: Lanes, width: nat -> nat)
      requires BatchesOk(batches, numTxns) && Valid() && log == [] && data0.Clear()
      requires HasRoom(planner, base, plan) && HandOff(device.Mem(), 1)
      modifies this`log, data0, data1, data0.params, data1.params, data0.retry, data1.retry
      modifies plan, device, planner`currNumOps, planner.submittedOps, planner.sortedOps
      modifies planner.writeOpsBefore, planner.writeOpsAfter, planner.rwOpsType, planner.tverWriteOpsBefore
      ensures multiset(log) == multiset(AllRuns(batches, numTxns, |batches|)) && HandOff(device.Mem(), |batches| + 1)
      ensures forall k ::
                Contents(device.Mem(), width)(k) ==
                SerialMicro(batches, numTxns, recordOf, lanes, width, Contents(old(device.Mem()), width), |batches|)(k)
    {
      ghost var db := Contents(device.Mem(), width);
      hide HandOff, PlansApart, RanSerially, SerialMicro, RunsOf, Contents;
      NoEpochYet(batches, numTxns, recordOf, lanes, width, device.Mem());
      for e := 0 to |batches|
        invariant Before(batches, e + 1) && multiset(log) == multiset(AllRuns(batches, numTxns, e))
        invariant HasRoom(planner, base, plan) && HandOff(device.Mem(), e + 1)
        invariant SerialSoFar(device.Mem(), batches, numTxns, recordOf, lanes, width, db, e)
      {
        ghost var was := device.Mem();
        RunEpoch(batches, e + 1, recordOf, planner, base, plan, device, lanes, width);
        OneMoreSerially(was, device.Mem(), batches, numTxns, recordOf, lanes, width, db, e);
      }
    }
  }

  ghost predicate SerialSoFar(m: Memory, batches: seq<seq<MicroTxn>>, n: nat, recordOf: nat -> nat, lanes: Lanes,
                              width: nat -> nat, db: Database, e: nat)
    requires BatchesOk(batches, n) && e <= |batches|
  {
    forall k :: Contents(m, width)(k) == SerialMicro(batches, n, recordOf, lanes, width, db, e)(k)
  }

  lemma NoEpochYet(batches: seq<seq<MicroTxn>>, n: nat, recordOf: nat -> nat, lanes: Lanes, width: nat -> nat,
                   m: Memory)
    requires BatchesOk(batches, n)
    ensures SerialSoFar(m, batches, n, recordOf, lanes, width, Contents(m, width), 0)
  {
    hide Contents;
  }

  lemma {:induction false} OneMoreSerially(was: Memory, now: Memory, batches: seq<seq<MicroTxn>>, n: nat,
                                           recordOf: nat -> nat, lanes: Lanes, width: nat -> nat, db: Database, e: nat)
    requires BatchesOk(batches, n) && e < |batches| && SerialSoFar(was, batches, n, recordOf, lanes, width, db, e)
    requires RanSerially(was, now, batches, n, recordOf, lanes, width, e + 1)
    ensures SerialSoFar(now, batches, n, recordOf, lanes, width, db, e + 1)
  {
    hide MicroJob, PendingIn, Contents, WellFormed, BatchesOk, SerialResult;
    var job := MicroJob(PendingIn(batches, n, recordOf, e + 1), lanes(e + 1), width);
    var before := SerialMicro(batches, n, recordOf, lanes, width, db, e);
    forall k ensures SerialResult(job, Contents(was, width))(k) == SerialResult(job, before)(k) {
      Epochs.SameRowsSameResult(job, Contents(was, width), before, k);
    }
  }

  lemma {:induction false} BatchFits(x: Pending, m: nat)
    requires x.Ok() && m <= x.Tickets()
    ensures |Submitted(x, m)| <= 20 * m
    decreases m
  {
    hide TicketOps;
    if m > 0 {
      BatchFits(x, m - 1);
      CountIsRight(x, m - 1);
      assert Parts(x)[m - 1] == x.OpsOf(m - 1);
    }
  }
}
