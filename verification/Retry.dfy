/** The micro benchmark: a transaction that aborts is executed again in the next epoch.  What should
    run when, and what each ticket submits. */
module Retry {
  import opened Planner

  datatype MicroTxn = MicroTxn(keys: seq<nat>, abort: bool)

  datatype MicroTxnParams = MicroTxnParams(recordIds: seq<nat>, abort: bool)

  /** Transaction tid of batch origin (counted from 1) was executed in an epoch. */
  datatype Run = Run(epoch: nat, origin: nat, tid: nat)

  ghost predicate BatchesOk(batches: seq<seq<MicroTxn>>, n: nat) {
    forall b: nat | b < |batches| :: |batches[b]| == n && forall t: nat | t < n :: |batches[b][t].keys| == 10
  }

  // ------------------------------------------------------------------ what should run

  /** What ticket m of epoch e runs: first come the tickets of the previous batch, then those of
      the current one. */
  ghost function TicketRun(batches: seq<seq<MicroTxn>>, n: nat, e: nat, m: nat): seq<Run>
    requires BatchesOk(batches, n) && 1 <= e <= |batches| && m < 2 * n
  {
    if m >= n then [Run(e, e, m - n)]
    else if e >= 2 && batches[e - 2][m].abort then [Run(e, e - 1, m)]
    else []
  }

  ghost function RunsOf(batches: seq<seq<MicroTxn>>, n: nat, e: nat, m: nat): seq<Run>
    requires BatchesOk(batches, n) && 1 <= e <= |batches| && m <= 2 * n
  {
    if m == 0 then [] else RunsOf(batches, n, e, m - 1) + TicketRun(batches, n, e, m - 1)
  }

  /** The ticket that would run r in epoch e. */
  predicate HasTicket(n: nat, e: nat, r: Run, m: nat) {
    r.epoch == e && r.tid < n && ((r.origin == e && m == n + r.tid) || (r.origin == e - 1 && e >= 2 && m == r.tid))
  }

  lemma {:induction false} RunOfTicket(batches: seq<seq<MicroTxn>>, n: nat, e: nat, m: nat, r: Run)
    requires BatchesOk(batches, n) && 1 <= e <= |batches| && m < 2 * n
    ensures multiset(TicketRun(batches, n, e, m))[r] ==
            if HasTicket(n, e, r, m) && (r.origin == e || batches[e - 2][r.tid].abort) then 1 else 0
  {}

  ghost function AllRuns(batches: seq<seq<MicroTxn>>, n: nat, e: nat): seq<Run>
    requires BatchesOk(batches, n) && e <= |batches|
  {
    if e == 0 then [] else AllRuns(batches, n, e - 1) + RunsOf(batches, n, e, 2 * n)
  }

  /** How often r is among the first m tickets of epoch e. */
  ghost function Times(batches: seq<seq<MicroTxn>>, n: nat, e: nat, m: nat, r: Run): nat
    requires BatchesOk(batches, n) && 1 <= e <= |batches| && m <= 2 * n
  {
    if r.epoch == e && r.tid < n
       && ((r.origin == e && n + r.tid < m) || (r.origin == e - 1 && e >= 2 && r.tid < m
          && batches[e - 2][r.tid].abort))
    then 1 else 0
  }

  lemma {:induction false} OneMoreTicket(batches: seq<seq<MicroTxn>>, n: nat, e: nat, m: nat, r: Run)
    requires BatchesOk(batches, n) && 1 <= e <= |batches| && m < 2 * n
    ensures Times(batches, n, e, m + 1, r) == Times(batches, n, e, m, r) + multiset(TicketRun(batches, n, e, m))[r]
  {
    RunOfTicket(batches, n, e, m, r);
    hide TicketRun;
  }

  lemma NoTicketYet(batches: seq<seq<MicroTxn>>, n: nat, e: nat, r: Run)
    requires BatchesOk(batches, n) && 1 <= e <= |batches|
    ensures Times(batches, n, e, 0, r) == 0 && RunsOf(batches, n, e, 0) == []
  {}

  lemma OneMoreRun(batches: seq<seq<MicroTxn>>, n: nat, e: nat, m: nat, r: Run)
    requires BatchesOk(batches, n) && 1 <= e <= |batches| && m < 2 * n
    ensures multiset(RunsOf(batches, n, e, m + 1))[r] ==
            multiset(RunsOf(batches, n, e, m))[r] + multiset(TicketRun(batches, n, e, m))[r]
  {
    hide TicketRun, BatchesOk;
    CountConcat(RunsOf(batches, n, e, m), TicketRun(batches, n, e, m), r);
  }

  lemma {:induction false} RunsInEpoch(batches: seq<seq<MicroTxn>>, n: nat, e: nat, m: nat, r: Run)
    requires BatchesOk(batches, n) && 1 <= e <= |batches| && m <= 2 * n
    ensures multiset(RunsOf(batches, n, e, m))[r] == Times(batches, n, e, m, r)
    decreases m
  {
    hide RunsOf, TicketRun, Times, BatchesOk;
    if m == 0 {
      NoTicketYet(batches, n, e, r);
    } else {
      RunsInEpoch(batches, n, e, m - 1, r);
      OneMoreTicket(batches, n, e, m - 1, r);
      OneMoreRun(batches, n, e, m - 1, r);
    }
  }

  lemma CountConcat(a: seq<Run>, b: seq<Run>, r: Run)
    ensures multiset(a + b)[r] == multiset(a)[r] + multiset(b)[r]
  {}

  /** Once in its own epoch, and once more in the next epoch, if there is one by then, exactly
      when it aborts; never at another time. */
  ghost function ShouldRun(batches: seq<seq<MicroTxn>>, n: nat, e: nat, r: Run): nat
    requires BatchesOk(batches, n) && e <= |batches|
  {
    if 1 <= r.origin <= e && r.tid < n
       && (r.epoch == r.origin || (r.epoch == r.origin + 1 <= e && batches[r.origin - 1][r.tid].abort))
    then 1 else 0
  }

  lemma {:induction false} OneMoreEpoch(batches: seq<seq<MicroTxn>>, n: nat, e: nat, r: Run)
    requires BatchesOk(batches, n) && 1 <= e <= |batches|
    ensures ShouldRun(batches, n, e, r) == ShouldRun(batches, n, e - 1, r) + Times(batches, n, e, 2 * n, r)
  {}

  lemma {:induction false} RunsUpto(batches: seq<seq<MicroTxn>>, n: nat, e: nat, r: Run)
    requires BatchesOk(batches, n) && 1 <= e <= |batches|
    ensures multiset(AllRuns(batches, n, e))[r] ==
            multiset(AllRuns(batches, n, e - 1))[r] + Times(batches, n, e, 2 * n, r)
  {
    RunsInEpoch(batches, n, e, 2 * n, r);
    hide RunsOf, BatchesOk, Times;
    CountConcat(AllRuns(batches, n, e - 1), RunsOf(batches, n, e, 2 * n), r);
  }

  /** Exactly once: over the first e epochs every transaction runs as often as it should. */
  lemma {:induction false} RunsExactlyOnce(batches: seq<seq<MicroTxn>>, n: nat, e: nat, r: Run)
    requires BatchesOk(batches, n) && e <= |batches|
    ensures multiset(AllRuns(batches, n, e))[r] == ShouldRun(batches, n, e, r)
    decreases e
  {
    hide BatchesOk, ShouldRun, Times, AllRuns;
    NoRunsYet(batches, n, r);
    for i := 0 to e
      invariant multiset(AllRuns(batches, n, i))[r] == ShouldRun(batches, n, i, r)
    {
      RunsUpto(batches, n, i + 1, r);
      OneMoreEpoch(batches, n, i + 1, r);
    }
  }

  lemma {:induction false} NoRunsYet(batches: seq<seq<MicroTxn>>, n: nat, r: Run)
    requires BatchesOk(batches, n)
    ensures multiset(AllRuns(batches, n, 0))[r] == 0 == ShouldRun(batches, n, 0, r)
  {
    assert AllRuns(batches, n, 0) == [];
  }

  // ------------------------------------------------------------------ submission

  /** The accesses that ticket tid submits: ten reads and writes, or none if it is a transaction
      of the previous epoch that is not retried. */
  function TicketOps(prev: seq<MicroTxnParams>, retry: seq<bool>, curr: seq<MicroTxnParams>, tid: nat): seq<Op>
    requires |prev| == |retry| == |curr| && tid < 2 * |curr|
  {
    if tid < |curr| && !retry[tid] then []
    else MicroOps(if tid < |curr| then prev[tid].recordIds else curr[tid - |curr|].recordIds, tid, 10)
  }

  function MicroOps(recordIds: seq<nat>, tid: nat, n: nat): seq<Op> {
    if n == 0 || n > |recordIds| then []
    else MicroOps(recordIds, tid, n - 1)
         + [Op(recordIds[n - 1], tid, false, n - 1), Op(recordIds[n - 1], tid, true, 10 + n - 1)]
  }

  lemma {:induction false} MicroOpsAre(recordIds: seq<nat>, tid: nat, n: nat)
    requires n <= |recordIds|
    ensures |MicroOps(recordIds, tid, n)| == 2 * n
    ensures forall i: nat | i < n ::
              && MicroOps(recordIds, tid, n)[2 * i] == Op(recordIds[i], tid, false, i)
              && MicroOps(recordIds, tid, n)[2 * i + 1] == Op(recordIds[i], tid, true, 10 + i)
  {
    if n > 0 { MicroOpsAre(recordIds, tid, n - 1); }
  }

  /** No two accesses of a ticket are given the same word of its plan. */
  lemma {:induction false} MicroWordsDiffer(recordIds: seq<nat>, tid: nat, i: nat, j: nat)
    requires |recordIds| == 10 && i < j < 20
    ensures |MicroOps(recordIds, tid, 10)| == 20
    ensures MicroOps(recordIds, tid, 10)[i].offset != MicroOps(recordIds, tid, 10)[j].offset
    ensures MicroOps(recordIds, tid, 10)[i].offset < 20
  {
    hide MicroOps;
    MicroOpsAre(recordIds, tid, 10);
    var ops := MicroOps(recordIds, tid, 10);
    var a, b := i / 2, j / 2;
    assert i == 2 * a || i == 2 * a + 1;
    assert j == 2 * b || j == 2 * b + 1;
    assert ops[2 * a].offset == a && ops[2 * a + 1].offset == 10 + a;
    assert ops[2 * b].offset == b && ops[2 * b + 1].offset == 10 + b;
  }
}
