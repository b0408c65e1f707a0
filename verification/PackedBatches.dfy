/** What the planners are given fits the packed form of an access: plan words always fit their
    11 bits, so packing loses nothing as long as there are at most 2^20 transactions in a batch
    and at most 2^32 rows in a table. */
module PackedBatches {
  import opened Planner
  import opened TpccSubmitter
  import Micro = MicroEpoch
  import Retry
  import Tpcc = TpccEpoch
  import Ycsb = YcsbSubmitter

  /** The access's fields are in the ranges in which PackedOps.RoundTripIffFieldsFit says that packing
      loses nothing. */
  predicate Packs(op: Op) {
    op.record < 0x1_0000_0000 && op.txn < 0x10_0000 && op.offset < 0x800
  }

  ghost predicate AllPack(ops: seq<Op>) {
    forall op | op in ops :: Packs(op)
  }

  predicate RowsFit(ops: seq<Op>) {
    forall j | 0 <= j < |ops| :: ops[j].record < 0x1_0000_0000
  }

  /** Accesses of fewer than n transactions, in words that fit. */
  ghost predicate WordsFit(ops: seq<Op>, n: nat) {
    forall op | op in ops :: op.txn < n && op.offset < 0x800
  }

  /** So a batch packs without loss exactly when its row ids fit, if its transactions do. */
  lemma PacksIffRowsFit(ops: seq<Op>, n: nat)
    requires WordsFit(ops, n) && n <= 0x10_0000
    ensures AllPack(ops) <==> RowsFit(ops)
  {
    if AllPack(ops) {
      forall j | 0 <= j < |ops| ensures ops[j].record < 0x1_0000_0000 {
        assert Packs(ops[j]);
      }
    }
  }

  lemma WordsConcat(a: seq<Op>, b: seq<Op>, n: nat)
    requires WordsFit(a, n) && WordsFit(b, n)
    ensures WordsFit(a + b, n)
  {}

  lemma MoreTxns(ops: seq<Op>, m: nat, n: nat)
    requires WordsFit(ops, m) && m <= n
    ensures WordsFit(ops, n)
  {}

  // ------------------------------------------------------------------ TPC-C

  lemma {:induction false} FilterKeeps(ts: seq<Touch>, table: nat, n: nat)
    requires WordsWithin(ts, 0, n)
    ensures WordsWithin(Filter(ts, table), 0, n)
    decreases |ts|
  {
    if ts != [] { FilterKeeps(ts[..|ts| - 1], table, n); }
  }

  lemma {:induction false} TxnWordsFit(t: Params, u: nat, table: nat)
    requires Fits(t)
    ensures WordsFit(Tpcc.Ops(Tpcc.Place(Emits(t, table), u)), u + 1)
  {
    hide Emits, Program, Filter, Fits;
    ProgramWords(t);
    FilterKeeps(Program(t), table, PLAN_WORDS);
    ExecutesWhatIsEmitted(t, table);
  }

  lemma OpsConcat(a: seq<Tpcc.Placed>, b: seq<Tpcc.Placed>)
    ensures Tpcc.Ops(a + b) == Tpcc.Ops(a) + Tpcc.Ops(b)
  {}

  lemma {:induction false} TpccWordsFit(txns: seq<Params>, table: nat, n: nat)
    requires Tpcc.AllFit(txns) && n <= |txns|
    ensures WordsFit(Tpcc.Ops(Tpcc.Submitted(txns, table, n)), n)
    decreases n
  {
    hide Emits, Fits, WordsFit, Tpcc.Ops, Tpcc.Place;
    if n == 0 {
      NoWords(Tpcc.Ops([]), 0);
    } else {
      var before, own := Tpcc.Submitted(txns, table, n - 1), Tpcc.Place(Emits(txns[n - 1], table), n - 1);
      TpccWordsFit(txns, table, n - 1);
      MoreTxns(Tpcc.Ops(before), n - 1, n);
      TxnWordsFit(txns[n - 1], n - 1, table);
      OpsConcat(before, own);
      WordsConcat(Tpcc.Ops(before), Tpcc.Ops(own), n);
    }
  }

  lemma NoWords(ops: seq<Op>, n: nat)
    requires ops == []
    ensures WordsFit(ops, n)
  {}

  /** Every table's batch packs exactly when its row ids fit 32 bits. */
  lemma {:induction false} TpccBatchPacks(txns: seq<Params>, table: nat)
    requires Tpcc.AllFit(txns) && |txns| <= 0x10_0000
    ensures AllPack(Tpcc.Batch(txns, table)) <==> RowsFit(Tpcc.Batch(txns, table))
  {
    hide Tpcc.Submitted, Tpcc.AllFit, WordsFit;
    TpccWordsFit(txns, table, |txns|);
    PacksIffRowsFit(Tpcc.Batch(txns, table), |txns|);
  }

  // ------------------------------------------------------------------ YCSB

  /** The index of an array member is that of a field. */
  predicate InPlan(field: Ycsb.PlanField) {
    match field
    case FullReadPlan_readLocs(j) => j < Ycsb.FIELDS
    case FullRmwPlan_readLocs(j) => j < Ycsb.FIELDS
    case InsertFullPlan_writeLocs(j) => j < Ycsb.FIELDS
    case _ => true
  }

  lemma WordBelow(i: nat, field: Ycsb.PlanField)
    requires i < Ycsb.PIECES && InPlan(field)
    ensures Ycsb.WordOf(i, field) < 0x800
  {}

  lemma {:induction false} PieceWordsFit(split: bool, txn: nat, p: Ycsb.Param, i: nat)
    requires |p.types| == |p.records| == |p.fields| == Ycsb.PIECES && i < Ycsb.PIECES
    ensures WordsFit(Ycsb.Emits(split, txn, p, i), txn + 1)
  {
    hide Ycsb.WordOf;
    forall field | InPlan(field) ensures Ycsb.WordOf(i, field) < 0x800 {
      WordBelow(i, field);
    }
  }

  lemma {:induction false} YcsbWordsFit(split: bool, ps: seq<Ycsb.Param>, u: nat)
    requires Ycsb.ParamsOk(ps) && u <= Ycsb.PIECES * |ps|
    ensures WordsFit(Ycsb.Emitted(split, ps, u), |ps|)
    decreases u
  {
    hide Ycsb.Emits, WordsFit;
    if u == 0 {
      NoWords(Ycsb.Emitted(split, ps, 0), |ps|);
    } else {
      var t, i := (u - 1) / Ycsb.PIECES, (u - 1) % Ycsb.PIECES;
      YcsbWordsFit(split, ps, u - 1);
      PieceWordsFit(split, t, ps[t], i);
      MoreTxns(Ycsb.Emits(split, t, ps[t], i), t + 1, |ps|);
      WordsConcat(Ycsb.Emitted(split, ps, u - 1), Ycsb.Emits(split, t, ps[t], i), |ps|);
    }
  }

  /** The batch packs exactly when its row ids fit 32 bits. */
  lemma {:induction false} YcsbBatchPacks(split: bool, ps: seq<Ycsb.Param>)
    requires Ycsb.ParamsOk(ps) && |ps| <= 0x10_0000
    ensures AllPack(Ycsb.Batch(split, ps)) <==> RowsFit(Ycsb.Batch(split, ps))
  {
    hide Ycsb.Emitted, Ycsb.ParamsOk, WordsFit;
    YcsbWordsFit(split, ps, Ycsb.PIECES * |ps|);
    PacksIffRowsFit(Ycsb.Batch(split, ps), |ps|);
  }

  // ------------------------------------------------------------------ the micro benchmark

  lemma {:induction false} MicroOpsWords(recordIds: seq<nat>, tid: nat, n: nat)
    requires n <= |recordIds| && n <= 10
    ensures WordsFit(Retry.MicroOps(recordIds, tid, n), tid + 1)
    decreases n
  {
    if n > 0 { MicroOpsWords(recordIds, tid, n - 1); }
  }

  lemma {:induction false} TicketWordsFit(x: Micro.Pending, tid: nat)
    requires x.Ok() && tid < x.Tickets()
    ensures WordsFit(x.OpsOf(tid), tid + 1)
  {
    if x.Records(tid) != [] { MicroOpsWords(x.Records(tid), tid, 10); }
  }

  lemma {:induction false} MicroWordsFit(x: Micro.Pending, n: nat)
    requires x.Ok() && n <= x.Tickets()
    ensures WordsFit(Micro.Submitted(x, n), n)
    decreases n
  {
    hide Retry.TicketOps, WordsFit;
    if n == 0 {
      NoWords(Micro.Submitted(x, 0), 0);
    } else {
      MicroWordsFit(x, n - 1);
      MoreTxns(Micro.Submitted(x, n - 1), n - 1, n);
      TicketWordsFit(x, n - 1);
      WordsConcat(Micro.Submitted(x, n - 1), x.OpsOf(n - 1), n);
    }
  }

  /** The batch packs exactly when its row ids fit 32 bits; every transaction counts twice here. */
  lemma {:induction false} MicroBatchPacks(x: Micro.Pending)
    requires x.Ok() && x.Tickets() <= 0x10_0000
    ensures AllPack(Micro.Batch(x)) <==> RowsFit(Micro.Batch(x))
  {
    hide Micro.Submitted, WordsFit;
    MicroWordsFit(x, x.Tickets());
    PacksIffRowsFit(Micro.Batch(x), x.Tickets());
  }
}
