/** The whole TPC-C run: after the initial load every epoch is indexed, submitted, planned and
    executed, and memory ends up as if all transactions had been run one after the other. */
module TpccRun {
  import opened BatchIndex
  import opened DeliveryBalance
  import opened DeviceExecution
  import opened Execution
  import opened IndexedEpochs
  import opened Machine
  import opened TpccEpoch
  import opened TpccGenerator
  import opened TpccIndex
  import opened TpccKeys
  import opened TpccLanes
  import opened TpccSubmitter
  import opened TpccTables
  import opened TpccWords
  import opened EpochWords
  import Epochs
  import Money
  import Stock

  // ------------------------------------------------------------------ how much is submitted

  /** The most that a generated transaction submits for a table. */
  function MostOps(x: Input, table: nat): nat {
    match x
    case NewOrderInput(_, _, _, _, _, _) =>
      if table == DISTRICT then 2
      else if table in {WAREHOUSE, CUSTOMER, ORDER, NEW_ORDER} then 1
      else if table in {ORDER_LINE, ITEM} then 15
      else if table == STOCK then 30
      else 0
    case PaymentInput(_, _, _, _, _) => if table in {WAREHOUSE, DISTRICT, CUSTOMER} then 2 else 0
    case OrderStatusInput(_, _, _, _) =>
      if table in {CUSTOMER, ORDER} then 1 else if table == ORDER_LINE then 15 else 0
    case DeliveryInput(_, _) =>
      if table in {CUSTOMER, ORDER} then 20
      else if table == NEW_ORDER then 10
      else if table == ORDER_LINE then 300
      else 0
    case StockLevelInput(_, _, _) => if table == STOCK then 300 else 0
  }

  /** The most that the first n transactions of the epoch that begins at first submit. */
  function MostOf(ins: seq<Input>, first: nat, n: nat, table: nat): nat
    requires first + n <= |ins|
  {
    if n == 0 then 0 else MostOf(ins, first, n - 1, table) + MostOps(ins[first + n - 1], table)
  }

  /** The indexed transaction is of the input's type. */
  predicate SameType(x: Input, t: Params) {
    match x
    case NewOrderInput(_, _, _, _, _, _) => t.NewOrder?
    case PaymentInput(_, _, _, _, _) => t.Payment?
    case OrderStatusInput(_, _, _, _) => t.OrderStatus?
    case DeliveryInput(_, _) => t.Delivery?
    case StockLevelInput(_, _, _) => t.StockLevel?
  }

  lemma {:induction false} TotalLinesAtMost(entries: seq<Delivered>, n: nat)
    requires n <= |entries| && forall i | 0 <= i < n :: |entries[i].orderLines| <= 15
    ensures TotalLines(entries, n) <= 15 * n
  {
    if n > 0 { TotalLinesAtMost(entries, n - 1); }
  }

  lemma {:induction false} EmitsAtMost(x: Input, t: Params, table: nat)
    requires SameType(x, t) && Fits(t)
    ensures |Emits(t, table)| <= MostOps(x, table)
  {
    hide TotalLines, Emits;
    CountsWhatIsEmitted(t, table);
    if t.Delivery? { TotalLinesAtMost(t.entries, 10); }
  }

  /** txns are of the types of the inputs from first on. */
  ghost predicate SameTypes(ins: seq<Input>, first: nat, txns: seq<Params>) {
    && first + |txns| <= |ins|
    && forall u: nat | u < |txns| :: SameType(ins[first + u], txns[u])
  }

  lemma {:induction false} SubmittedAtMost(ins: seq<Input>, first: nat, txns: seq<Params>, table: nat, n: nat)
    requires SameTypes(ins, first, txns) && AllFit(txns) && n <= |txns|
    ensures |Submitted(txns, table, n)| <= MostOf(ins, first, n, table)
    decreases n
  {
    hide SameType, Fits, Emits, MostOps;
    if n > 0 {
      SubmittedAtMost(ins, first, txns, table, n - 1);
      EmitsAtMost(ins[first + n - 1], txns[n - 1], table);
    }
  }

  lemma {:induction false} IndexedTypes(config: TpccConfig, found: Found, s: StaticRows, ins: seq<Input>,
                                        initial: Initial, e: nat, txns: seq<Params>)
    requires EpochIndexed(config, found, s, ins, initial, e, txns)
    ensures SameTypes(ins, e * config.numTxns, txns) && |txns| == config.numTxns && AllFit(txns) && DeliveredLast(txns)
  {
    hide AllFit, DeliveredLast, InTables, HasKeys, Known, Fits;
    var first := e * config.numTxns;
    forall u: nat | u < |txns| ensures SameType(ins[first + u], txns[u]) {
      assert HasRows(found, s, ins, initial, config.numWarehouses, first + u, txns[u]);
    }
  }

  /** The planners' buffers are long enough for what each epoch may submit, and the batches can be
      counted in 32 bits. */
  ghost predicate MixFits(config: TpccConfig, ins: seq<Input>, room: seq<nat>) {
    && |ins| == config.epochs * config.numTxns && |room| == 8
    && forall e: nat, t: nat | e < config.epochs && t < 8 :: EpochFits(config, ins, room, e, t)
  }

  ghost predicate EpochFits(config: TpccConfig, ins: seq<Input>, room: seq<nat>, e: nat, t: nat)
    requires t < |room|
  {
    && e * config.numTxns + config.numTxns <= |ins|
    && MostOf(ins, e * config.numTxns, config.numTxns, t) <= room[t] < WORD
  }

  lemma RoomSuffices(config: TpccConfig, ins: seq<Input>, room: seq<nat>, e: nat, t: nat)
    requires MixFits(config, ins, room) && e < config.epochs && t < 8
    ensures t < |room| && e * config.numTxns + config.numTxns <= |ins|
    ensures MostOf(ins, e * config.numTxns, config.numTxns, t) <= room[t] < WORD
  {
    hide MostOf;
    assert EpochFits(config, ins, room, e, t);
  }

  /** So every epoch's batches fit. */
  lemma {:induction false} BatchesFit(config: TpccConfig, ins: seq<Input>, room: seq<nat>, e: nat, txns: seq<Params>,
                                      t: nat)
    requires MixFits(config, ins, room) && e < config.epochs && |txns| == config.numTxns
    requires SameTypes(ins, e * config.numTxns, txns) && AllFit(txns)
    ensures |Batch(txns, t)| < WORD && (t < 8 ==> |Batch(txns, t)| <= room[t])
  {
    hide MixFits, SameTypes, AllFit, Submitted, MostOf;
    if t < 8 {
      RoomSuffices(config, ins, room, e, t);
      SubmittedAtMost(ins, e * config.numTxns, txns, t, |txns|);
    } else {
      NothingElsewhere(txns, t, |txns|);
    }
  }

  // ------------------------------------------------------------------ the serial meaning

  /** What the warps compute, epoch by epoch and batch by batch. */
  type Lanes = (nat, seq<Params>) -> ((nat, seq<Row>, nat) -> Word)

  /** The database after e epochs: all batches, one after the other, each transaction by transaction. */
  ghost function SerialTpcc(batches: seq<seq<Params>>, lanes: Lanes, width: nat -> nat, db: Database, e: nat): Database
    requires e <= |batches|
  {
    if e == 0 then db
    else
      var txns := batches[e - 1];
      TpccJobIsWellFormed(txns, lanes(e, txns), width);
      SerialResult(TpccJob(txns, lanes(e, txns), width), SerialTpcc(batches, lanes, width, db, e - 1))
  }

  ghost predicate SerialSoFar(m: Memory, batches: seq<seq<Params>>, lanes: Lanes, width: nat -> nat, db: Database) {
    forall k :: Contents(m, width)(k) == SerialTpcc(batches, lanes, width, db, |batches|)(k)
  }

  lemma NoEpochYet(m: Memory, lanes: Lanes, width: nat -> nat)
    ensures SerialSoFar(m, [], lanes, width, Contents(m, width))
  {
    hide Contents;
  }

  lemma {:induction false} SamePrefix(batches: seq<seq<Params>>, more: seq<seq<Params>>, lanes: Lanes,
                                      width: nat -> nat, db: Database, e: nat)
    requires e <= |batches|
    ensures SerialTpcc(batches + more, lanes, width, db, e) == SerialTpcc(batches, lanes, width, db, e)
    decreases e
  {
    hide TpccJob, WellFormed, SerialResult;
    if e > 0 { SamePrefix(batches, more, lanes, width, db, e - 1); }
  }

  /** From was to now memory has gone through a batch as in the serial run. */
  ghost predicate RanSerially(was: Memory, now: Memory, job: Job) {
    WellFormed(job) && forall k :: Contents(now, job.width)(k) == SerialResult(job, Contents(was, job.width))(k)
  }

  lemma {:induction false} OneMoreSerially(was: Memory, now: Memory, batches: seq<seq<Params>>, txns: seq<Params>,
                                           lanes: Lanes, width: nat -> nat, db: Database)
    requires SerialSoFar(was, batches, lanes, width, db)
    requires RanSerially(was, now, TpccJob(txns, lanes(|batches| + 1, txns), width))
    ensures SerialSoFar(now, batches + [txns], lanes, width, db)
  {
    hide Contents, WellFormed, SerialResult, ExecutedAccesses, All;
    var n, job := |batches|, TpccJob(txns, lanes(|batches| + 1, txns), width);
    var before := SerialTpcc(batches, lanes, width, db, n);
    SamePrefix(batches, [txns], lanes, width, db, n);
    assert (batches + [txns])[n] == txns;
    forall k ensures SerialResult(job, Contents(was, width))(k) == SerialResult(job, before)(k) {
      Epochs.SameRowsSameResult(job, Contents(was, width), before, k);
    }
  }

  // ------------------------------------------------------------------ the run

  /** The planners share nothing with each other or with the plans, and have room. */
  ghost predicate PlannersOk(planners: seq<TablePlanner>, plan: array<nat>, room: seq<nat>)
    reads planners
  {
    && |planners| == 8 == |room| && Separate(planners, plan)
    && forall t: nat | t < 8 :: planners[t].Valid() && planners[t].maxNumOps == room[t]
  }

  /** Submission, planning and execution of an indexed epoch. */
  method ExecuteEpoch(config: TpccConfig, ghost ins: seq<Input>, e: nat, txns: seq<Params>,
                      planners: seq<TablePlanner>, ghost room: seq<nat>, base: seq<nat>, plan: array<nat>,
                      device: Device, lane: (nat, seq<Row>, nat) -> Word, width: nat -> nat)
    requires MixFits(config, ins, room) && e < config.epochs && |txns| == config.numTxns
    requires SameTypes(ins, e * config.numTxns, txns) && AllFit(txns) && DeliveredLast(txns)
    requires PlannersOk(planners, plan, room) && |base| == config.numTxns && PlansApart(base, plan.Length)
    requires HandOff(device.Mem(), e + 1)
    modifies planners, set p | p in planners :: p.submittedOps
    modifies plan, set p | p in planners :: p.sortedOps, set p | p in planners :: p.rwOpsType
    modifies set p | p in planners :: p.writeOpsBefore, set p | p in planners :: p.writeOpsAfter
    modifies set p | p in planners :: p.tverWriteOpsBefore
    modifies device
    ensures PlannersOk(planners, plan, room) && HandOff(device.Mem(), e + 2)
    ensures RanSerially(old(device.Mem()), device.Mem(), TpccJob(txns, lane, width))
  {
    hide MixFits, SameTypes, AllFit, DeliveredLast, PlansApart, HandOff, Contents, Batch, Separate, WellFormed;
    forall t: nat ensures |Batch(txns, t)| < WORD && (t < 8 ==> |Batch(txns, t)| <= room[t]) {
      BatchesFit(config, ins, room, e, txns, t);
    }
    assert TpccJob(txns, lane, width).width == width;
    TpccEpoch.RunEpoch(txns, planners, base, plan, device, e + 1, lane, width);
  }

  /** The whole run, from the generated transactions to the database. */
  method RunBenchmark(config: TpccConfig, slots: nat, initial: Initial, ins: seq<Input>, s: StaticRows,
                      planners: seq<TablePlanner>, ghost room: seq<nat>, base: seq<nat>, plan: array<nat>,
                      device: Device, lanes: Lanes, width: nat -> nat) returns (batches: seq<seq<Params>>)
    requires Known(ins, initial, config.numWarehouses) && SlotsSuffice(ins, slots) && MixFits(config, ins, room)
    requires PlannersOk(planners, plan, room) && |base| == config.numTxns && PlansApart(base, plan.Length)
    requires HandOff(device.Mem(), 1)
    modifies planners, set p | p in planners :: p.submittedOps
    modifies plan, set p | p in planners :: p.sortedOps, set p | p in planners :: p.rwOpsType
    modifies set p | p in planners :: p.writeOpsBefore, set p | p in planners :: p.writeOpsAfter
    modifies set p | p in planners :: p.tverWriteOpsBefore
    modifies device
    ensures |batches| == config.epochs && HandOff(device.Mem(), config.epochs + 1)
    ensures forall e: nat | e < config.epochs :: IsEpochOf(config, s, ins, initial, e, batches[e])
    ensures SerialSoFar(device.Mem(), batches, lanes, width, Contents(old(device.Mem()), width))
  {
    hide Known, MixFits, PlansApart, HandOff, Contents, SerialSoFar, SlotsSuffice, IsEpochOf;
    hide SameTypes, RanSerially, PlannersOk, Indexes.Holds, AllFit, DeliveredLast, TpccJob;
    ghost var db := Contents(device.Mem(), width);
    MixSize(config, ins, room);
    var indexes := new Indexes(config, slots, initial, ins, s);
    batches := [];
    NoEpochYet(device.Mem(), lanes, width);
    for e := 0 to config.epochs
      invariant indexes.Holds(ins, initial, e)
      invariant PlannersOk(planners, plan, room) && HandOff(device.Mem(), e + 1)
      invariant |batches| == e && SerialSoFar(device.Mem(), batches, lanes, width, db)
      invariant forall d: nat | d < e :: IsEpochOf(config, s, ins, initial, d, batches[d])
    {
      var txns := indexes.IndexNext(initial, ins, e, s);
      EpochTypes(config, s, ins, initial, e, txns);
      ghost var was := device.Mem();
      ExecuteEpoch(config, ins, e, txns, planners, room, base, plan, device, lanes(e + 1, txns), width);
      OneMoreSerially(was, device.Mem(), batches, txns, lanes, width, db);
      batches := batches + [txns];
    }
  }

  lemma EpochTypes(config: TpccConfig, s: StaticRows, ins: seq<Input>, initial: Initial, e: nat, txns: seq<Params>)
    requires IsEpochOf(config, s, ins, initial, e, txns)
    ensures SameTypes(ins, e * config.numTxns, txns) && |txns| == config.numTxns && AllFit(txns) && DeliveredLast(txns)
  {
    hide EpochIndexed, SameTypes, AllFit, DeliveredLast;
    var found :| EpochIndexed(config, found, s, ins, initial, e, txns);
    IndexedTypes(config, found, s, ins, initial, e, txns);
  }

  lemma MixSize(config: TpccConfig, ins: seq<Input>, room: seq<nat>)
    requires MixFits(config, ins, room)
    ensures |ins| == config.epochs * config.numTxns
  {}

  // ------------------------------------------------------------------ what the customers have

  /** The executor's lanes in every epoch. */
  function ExecutorLanes(values: (nat, nat) -> Values): Lanes {
    (e: nat, txns: seq<Params>) => TpccLane(txns, Money.OfEpoch(values, e))
  }

  /** What customer c pays in the first e epochs. */
  function PaidInRun(batches: seq<seq<Params>>, values: (nat, nat) -> Values, c: nat, e: nat): nat
    requires e <= |batches|
  {
    if e == 0 then 0
    else
      PaidInRun(batches, values, c, e - 1)
      + PaidBy(batches[e - 1], Money.OfEpoch(values, e), c, |batches[e - 1]|)
  }

  /** Over the whole run a customer's balance loses what the customer pays and gains nothing from what
      is delivered. */
  lemma {:induction false} RunBalance(batches: seq<seq<Params>>, values: (nat, nat) -> Values, width: nat -> nat,
                                      db: Database, c: nat, e: nat)
    requires WideEnough(width) && e <= |batches|
    ensures Congruent(BalanceIn(SerialTpcc(batches, ExecutorLanes(values), width, db, e)(CustomerKey(c))),
                      BalanceIn(db(CustomerKey(c))) - PaidInRun(batches, values, c, e))
    decreases e
  {
    hide WideEnough, Congruent, PaidBy, TpccLane, SerialResult, WellFormed, TpccJob, WordIn;
    var k, lanes := CustomerKey(c), ExecutorLanes(values);
    if e == 0 {
      CongruentSelf(BalanceIn(db(k)));
    } else {
      var txns, before := batches[e - 1], SerialTpcc(batches, lanes, width, db, e - 1);
      RunBalance(batches, values, width, db, c, e - 1);
      DroppedBalance(txns, Money.OfEpoch(values, e), width, before, c);
      var paid: int := PaidBy(txns, Money.OfEpoch(values, e), c, |txns|);
      var earlier: int := PaidInRun(batches, values, c, e - 1);
      CongruentSelf(0 - paid);
      CongruentSum(BalanceIn(before(k)), BalanceIn(db(k)) - earlier, 0 - paid, 0 - paid);
      CongruentTrans(BalanceIn(SerialTpcc(batches, lanes, width, db, e)(k)), BalanceIn(before(k)) - paid,
        BalanceIn(db(k)) - earlier - paid);
    }
  }

  // ------------------------------------------------------------------ what all rows have

  /** The transactions of the first e epochs. */
  function TxnsOfRun(batches: seq<seq<Params>>, e: nat): seq<Params>
    requires e <= |batches|
  {
    if e == 0 then [] else TxnsOfRun(batches, e - 1) + batches[e - 1]
  }

  /** Their parameters that are no row ids: those of transaction u of epoch e are values(e, u). */
  function ValuesOfRun(batches: seq<seq<Params>>, values: (nat, nat) -> Values, e: nat): nat -> Values
    requires e <= |batches|
  {
    if e == 0 then (u: nat) => values(0, u)
    else
      var earlier, n := ValuesOfRun(batches, values, e - 1), |TxnsOfRun(batches, e - 1)|;
      (u: nat) => if u < n then earlier(u) else values(e, u - n)
  }

  function RunOn(batches: seq<seq<Params>>, values: (nat, nat) -> Values, width: nat -> nat, db: Database, e: nat):
      WordRun
    requires e <= |batches|
  {
    BatchOn(TxnsOfRun(batches, e), ValuesOfRun(batches, values, e), width, db)
  }

  /** Over the whole run every word is what all transactions of all epochs make of it, one after the
      other. */
  lemma {:induction false} RunLeaves(batches: seq<seq<Params>>, values: (nat, nat) -> Values, width: nat -> nat,
                                     db: Database, e: nat, k: Key, i: nat)
    requires e <= |batches| && Money.Sized(db, width)
    ensures var row := SerialTpcc(batches, ExecutorLanes(values), width, db, e)(k);
            && |row| == width(k.table)
            && (i < width(k.table) ==>
                  WordIn(row, i) == WordAfter(RunOn(batches, values, width, db, e), |TxnsOfRun(batches, e)|, k, i))
    decreases e, 0
  {
    hide SerialTpcc, WordAfter, WordIn, Follows, RunOn;
    if e == 0 {
      NothingLeftYet(batches, values, width, db, k, i);
    } else {
      var txns, before := batches[e - 1], SerialTpcc(batches, ExecutorLanes(values), width, db, e - 1);
      var vals := Money.OfEpoch(values, e);
      forall k': Key ensures |before(k')| == width(k'.table) { RunLeaves(batches, values, width, db, e - 1, k', 0); }
      NextBatchLeaves(batches, values, width, db, e - 1, k, i);
      if i < width(k.table) {
        NextBatchFollows(batches, values, width, db, e - 1);
        RunShape(batches, values, width, db, e);
        SecondPart(RunOn(batches, values, width, db, e - 1), BatchOn(txns, vals, width, before),
          RunOn(batches, values, width, db, e), |txns|, k, i);
      }
    }
  }

  lemma RunShape(batches: seq<seq<Params>>, values: (nat, nat) -> Values, width: nat -> nat, db: Database, e: nat)
    requires 0 < e <= |batches|
    ensures |RunOn(batches, values, width, db, e - 1).txns| + |batches[e - 1]| == |TxnsOfRun(batches, e)|
    ensures RunOn(batches, values, width, db, e - 1).width == width
  {}

  lemma NothingLeftYet(batches: seq<seq<Params>>, values: (nat, nat) -> Values, width: nat -> nat, db: Database,
                       k: Key, i: nat)
    requires Money.Sized(db, width)
    ensures var row := SerialTpcc(batches, ExecutorLanes(values), width, db, 0)(k);
            |row| == width(k.table) && WordIn(row, i) == WordAfter(RunOn(batches, values, width, db, 0), 0, k, i)
  {}

  lemma {:induction false} NextBatchLeaves(batches: seq<seq<Params>>, values: (nat, nat) -> Values,
                                           width: nat -> nat, db: Database, e: nat, k: Key, i: nat)
    requires e < |batches| && Money.Sized(SerialTpcc(batches, ExecutorLanes(values), width, db, e), width)
    ensures var before := SerialTpcc(batches, ExecutorLanes(values), width, db, e);
            var row := SerialTpcc(batches, ExecutorLanes(values), width, db, e + 1)(k);
            && |row| == width(k.table)
            && (i < width(k.table) ==>
                  WordIn(row, i) ==
                  WordAfter(BatchOn(batches[e], Money.OfEpoch(values, e + 1), width, before), |batches[e]|, k, i))
  {
    hide TpccLane, SerialResult, WellFormed, TpccJob, WordIn, WordAfter, Money.Sized;
    ResultWords(batches[e], Money.OfEpoch(values, e + 1), width,
      SerialTpcc(batches, ExecutorLanes(values), width, db, e), k, i);
  }

  lemma {:induction false} NextBatchFollows(batches: seq<seq<Params>>, values: (nat, nat) -> Values,
                                            width: nat -> nat, db: Database, e: nat)
    requires e < |batches| && Money.Sized(db, width)
    ensures Follows(RunOn(batches, values, width, db, e),
                    BatchOn(batches[e], Money.OfEpoch(values, e + 1), width,
                            SerialTpcc(batches, ExecutorLanes(values), width, db, e)),
                    RunOn(batches, values, width, db, e + 1))
    decreases e, 1
  {
    hide SerialTpcc, WordAfter, Money.Sized, RunOn, BatchOn;
    var before := SerialTpcc(batches, ExecutorLanes(values), width, db, e);
    var r, all := RunOn(batches, values, width, db, e), RunOn(batches, values, width, db, e + 1);
    var s := BatchOn(batches[e], Money.OfEpoch(values, e + 1), width, before);
    NextBatchShape(batches, values, width, db, before, e);
    forall j: nat ensures j < |r.txns| ==> all.values(j) == r.values(j)
                  ensures j < |s.txns| ==> all.values(|r.txns| + j) == s.values(j)
    {
      NextBatchValues(batches, values, width, db, before, e, j);
    }
    forall k: Key, i: nat | i < width(k.table)
      ensures all.begin(k, i) == r.begin(k, i) && s.begin(k, i) == WordAfter(r, |r.txns|, k, i)
    {
      NextBatchBegins(batches, values, width, db, before, e, k, i);
      RunLeaves(batches, values, width, db, e, k, i);
    }
  }

  lemma NextBatchShape(batches: seq<seq<Params>>, values: (nat, nat) -> Values, width: nat -> nat, db: Database,
                       before: Database, e: nat)
    requires e < |batches|
    ensures var r, all := RunOn(batches, values, width, db, e), RunOn(batches, values, width, db, e + 1);
            var s := BatchOn(batches[e], Money.OfEpoch(values, e + 1), width, before);
            && all.txns == r.txns + s.txns && all.width == r.width == s.width == width
            && r.txns == TxnsOfRun(batches, e) && s.txns == batches[e]
  {
    hide ValuesOfRun;
  }

  lemma NextBatchValues(batches: seq<seq<Params>>, values: (nat, nat) -> Values, width: nat -> nat, db: Database,
                        before: Database, e: nat, j: nat)
    requires e < |batches|
    ensures var r, all := RunOn(batches, values, width, db, e), RunOn(batches, values, width, db, e + 1);
            var s := BatchOn(batches[e], Money.OfEpoch(values, e + 1), width, before);
            && (j < |r.txns| ==> all.values(j) == r.values(j)) && all.values(|r.txns| + j) == s.values(j)
  {
    hide ValuesOfRun, TxnsOfRun;
    var n := |TxnsOfRun(batches, e)|;
    NextValues(batches, values, e, j);
    NextValues(batches, values, e, n + j);
    assert n + j - n == j;
  }

  lemma NextValues(batches: seq<seq<Params>>, values: (nat, nat) -> Values, e: nat, u: nat)
    requires e < |batches|
    ensures var n := |TxnsOfRun(batches, e)|;
            ValuesOfRun(batches, values, e + 1)(u) ==
            if u < n then ValuesOfRun(batches, values, e)(u) else values(e + 1, u - n)
  {
    hide TxnsOfRun;
  }

  lemma NextBatchBegins(batches: seq<seq<Params>>, values: (nat, nat) -> Values, width: nat -> nat, db: Database,
                        before: Database, e: nat, k: Key, i: nat)
    requires e < |batches|
    ensures var r, all := RunOn(batches, values, width, db, e), RunOn(batches, values, width, db, e + 1);
            all.begin(k, i) == r.begin(k, i)
    ensures BatchOn(batches[e], Money.OfEpoch(values, e + 1), width, before).begin(k, i) == WordIn(before(k), i)
  {
    hide ValuesOfRun, TxnsOfRun;
  }

  /** Over the whole run a stock row loses what is ordered of it, by Epic's rule. */
  lemma {:induction false} RunStock(batches: seq<seq<Params>>, values: (nat, nat) -> Values, width: nat -> nat,
                                    db: Database, e: nat, stock: nat)
    requires e <= |batches| && Money.Sized(db, width) && S_QUANTITY < width(STOCK)
    ensures var q := WordIn(db(Key(STOCK, stock)), S_QUANTITY);
            var orders := Orders(RunOn(batches, values, width, db, e), stock, |TxnsOfRun(batches, e)|);
            var left := WordIn(SerialTpcc(batches, ExecutorLanes(values), width, db, e)(Key(STOCK, stock)), S_QUANTITY);
            && left == Quantity(q, orders)
            && (Stock.InStock(q) && Stock.OrdersOk(orders) && orders != [] ==>
                  left == if Stock.Sell(q, orders) == 10 then 101 else Stock.Sell(q, orders))
  {
    hide SerialTpcc, WordIn, WordAfter, Orders, Quantity, Stock.Sell, Money.Sized;
    RunLeaves(batches, values, width, db, e, Key(STOCK, stock), S_QUANTITY);
    QuantityIs(RunOn(batches, values, width, db, e), stock, |TxnsOfRun(batches, e)|);
    QuantityInRange(WordIn(db(Key(STOCK, stock)), S_QUANTITY),
      Orders(RunOn(batches, values, width, db, e), stock, |TxnsOfRun(batches, e)|));
  }
}
