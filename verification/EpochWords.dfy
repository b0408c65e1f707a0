/** What an epoch of TPC-C leaves in the words of the database, and what its queries see, in every
    interleaving. */
module EpochWords {
  import opened DeliveryBalance
  import opened Execution
  import opened Machine
  import opened SerialEquivalence
  import opened SerialRows
  import opened SerialWords
  import opened TpccEpoch
  import opened TpccLanes
  import opened TpccProgram
  import opened TpccSubmitter
  import opened TpccTables
  import opened TpccWords
  import Money
  import Stock

  /** The transactions of a batch on a database. */
  function BatchOn(txns: seq<Params>, values: nat -> Values, width: nat -> nat, db: Database): WordRun {
    WordRun(txns, values, width, BeginOf(db))
  }

  /** The serial run of the executor's lanes. */
  lemma {:induction false} ResultWords(txns: seq<Params>, values: nat -> Values, width: nat -> nat, db: Database,
                                       k: Key, i: nat)
    requires Money.Sized(db, width)
    ensures WellFormed(TpccJob(txns, TpccLane(txns, values), width))
    ensures var row := SerialResult(TpccJob(txns, TpccLane(txns, values), width), db)(k);
            && |row| == width(k.table)
            && (i < width(k.table) ==> WordIn(row, i) == WordAfter(BatchOn(txns, values, width, db), |txns|, k, i))
  {
    hide TpccJob, TpccLane, WellFormed, JobOf, RowOf, WordIn, WordAfter, SerialResult, Money.Sized;
    var b := SerialBatch(txns, values, C_BALANCE, width, db);
    DroppedJob(txns, values, width, db);
    ResultRow(b, k);
    BeginsSized(b, |txns|, k);
    if i < width(k.table) { WordsHold(b, |txns|, k, i); }
  }

  lemma ResultRow(b: SerialBatch, k: Key)
    ensures WellFormed(JobOf(b)) && SerialResult(JobOf(b), b.db)(k) == RowOf(b, |b.txns|, k)
  {
    Money.OneUnitEach(b.txns, LaneIn(b), b.width);
    hide TpccJob, WellFormed, LaneIn, SerialStore;
  }

  /** The configuration of an epoch whose batch is executed by the lanes as they are. */
  ghost predicate RunsBatch(c: Config, txns: seq<Params>, values: nat -> Values) {
    Ready(c) && c.job == TpccJob(txns, TpccLane(txns, values), c.job.width)
  }

  /** What the batch does to the words that memory begins with. */
  ghost function RunIn(c: Config, txns: seq<Params>, values: nat -> Values): WordRun {
    BatchOn(txns, values, c.job.width, Db(c))
  }

  /** After every finished run of an epoch every word is what the batch's transactions make of it when
      they run one after the other. */
  lemma {:induction false} EpochLeaves(c: Config, schedule: seq<nat>, txns: seq<Params>, values: nat -> Values, k: Key,
                                       i: nat)
    requires RunsBatch(c, txns, values) && i < c.job.width(k.table)
    requires forall j | 0 <= j < |schedule| :: schedule[j] < NumUnits(c.job)
    requires Finished(c, Run(c, schedule))
    ensures WordIn(Contents(Run(c, schedule).mem, c.job.width)(k), i) ==
            WordAfter(RunIn(c, txns, values), |txns|, k, i)
  {
    hide Run, Contents, TpccJob, TpccLane, SerialResult, WordIn, WordAfter, Finished, Money.Sized, HandOff;
    EpochIsSerial(c, schedule);
    DbSized(c);
    ResultWords(txns, values, c.job.width, Db(c), k, i);
  }

  lemma DbSized(c: Config)
    ensures Money.Sized(Db(c), c.job.width)
  {
    Money.ContentsSized(c.begin, c.job.width);
  }

  /** A stock row ends with the quantity that Epic's rule leaves after all orders of the batch for the
      row, in batch order: the right one, except that it is 101 where 10 is right. */
  lemma {:induction false} EpochStock(c: Config, schedule: seq<nat>, txns: seq<Params>, values: nat -> Values,
                                      stock: nat)
    requires RunsBatch(c, txns, values) && S_QUANTITY < c.job.width(STOCK)
    requires forall j | 0 <= j < |schedule| :: schedule[j] < NumUnits(c.job)
    requires Finished(c, Run(c, schedule))
    ensures var q := WordIn(Db(c)(Key(STOCK, stock)), S_QUANTITY);
            var orders := Orders(RunIn(c, txns, values), stock, |txns|);
            var left := WordIn(Contents(Run(c, schedule).mem, c.job.width)(Key(STOCK, stock)), S_QUANTITY);
            && left == Quantity(q, orders)
            && (Stock.InStock(q) && Stock.OrdersOk(orders) && orders != [] ==>
                  left == if Stock.Sell(q, orders) == 10 then 101 else Stock.Sell(q, orders))
  {
    hide Run, Contents, TpccJob, TpccLane, WordIn, WordAfter, Finished, RunsBatch, Orders;
    EpochLeaves(c, schedule, txns, values, Key(STOCK, stock), S_QUANTITY);
    QuantityIs(RunIn(c, txns, values), stock, |txns|);
    QuantityInRange(WordIn(Db(c)(Key(STOCK, stock)), S_QUANTITY), Orders(RunIn(c, txns, values), stock, |txns|));
  }

  lemma {:induction false} QuantityInRange(q: nat, orders: seq<uint32>)
    ensures Stock.InStock(q) && Stock.OrdersOk(orders) && orders != [] ==>
              Quantity(q, orders) == if Stock.Sell(q, orders) == 10 then 101 else Stock.Sell(q, orders)
  {
    hide Stock.Sell, Stock.EpicSell;
    if Stock.InStock(q) && Stock.OrdersOk(orders) && orders != [] { Stock.EpicSellIs(q, orders); }
  }

  /** Every total and counter of warehouses, districts and customers ends as it was, changed by what
      the batch's Payments and Deliveries change it by, modulo 2^32. */
  lemma {:induction false} EpochTotal(c: Config, schedule: seq<nat>, txns: seq<Params>, values: nat -> Values, k: Key,
                                      i: nat)
    requires RunsBatch(c, txns, values) && IsTotal(k, i) && i < c.job.width(k.table)
    requires forall j | 0 <= j < |schedule| :: schedule[j] < NumUnits(c.job)
    requires Finished(c, Run(c, schedule))
    ensures WordIn(Contents(Run(c, schedule).mem, c.job.width)(k), i) % WORD ==
            (WordIn(Db(c)(k), i) + Change(RunIn(c, txns, values), k, i, |txns|)) % WORD
  {
    hide Run, Contents, TpccJob, TpccLane, WordIn, WordAfter, Finished, RunsBatch, Change, IsTotal;
    EpochLeaves(c, schedule, txns, values, k, i);
    TotalIs(RunIn(c, txns, values), k, i, |txns|);
  }

  /** A word that none of the transactions may change ends as it was. */
  lemma {:induction false} EpochKeeps(c: Config, schedule: seq<nat>, txns: seq<Params>, values: nat -> Values, k: Key,
                                      i: nat)
    requires RunsBatch(c, txns, values) && i < c.job.width(k.table)
    requires forall j | 0 <= j < |schedule| :: schedule[j] < NumUnits(c.job)
    requires Finished(c, Run(c, schedule))
    requires forall u: nat | u < |txns| :: !Sets(txns[u], k, i)
    ensures WordIn(Contents(Run(c, schedule).mem, c.job.width)(k), i) == WordIn(Db(c)(k), i)
  {
    hide Run, Contents, TpccJob, TpccLane, WordIn, Finished, RunsBatch, Sets, TxnWord;
    EpochLeaves(c, schedule, txns, values, k, i);
    Kept(RunIn(c, txns, values), 0, |txns|, k, i);
  }

  // ------------------------------------------------------------------ what queries see

  /** What a transaction that only reads has seen: the rows as the transactions before it left them. */
  lemma {:induction false} ReaderSees(b: SerialBatch, u: nat, p: nat)
    requires u < |b.txns| && (b.txns[u].OrderStatus? || b.txns[u].StockLevel?) && p <= |Program(b.txns[u])|
    ensures |SeenAt(b, u, p)| == p
    ensures forall q: nat | q < p :: SeenAt(b, u, p)[q] == RowOf(b, u, KeyOf(Program(b.txns[u])[q]))
    decreases p
  {
    hide Program, RowAt, RowOf, SeenAt;
    if p == 0 {
      TxnBegins(b, u, Key(0, 0));
    } else {
      ReaderSees(b, u, p - 1);
      var k := KeyOf(Program(b.txns[u])[p - 1]);
      OnlyReads(b.txns[u], p - 1);
      ReadStep(b, u, p - 1, k);
      TxnBegins(b, u, k);
      forall q: nat | q < p - 1 ensures !Program(b.txns[u])[q].write { OnlyReads(b.txns[u], q); }
      RowKept(b, u, 0, p - 1, k);
    }
  }

  /** What unit u has read at the end. */
  ghost function Seen(c: Config, schedule: seq<nat>, u: nat): seq<Row>
    requires |c.loc| == |c.job.ops| && |c.job.start| > 0 && u < NumUnits(c.job)
    requires forall j | 0 <= j < |schedule| :: schedule[j] < NumUnits(c.job)
  {
    Run(c, schedule).units[u].seen
  }

  lemma {:induction false} SeenIsSerial(c: Config, schedule: seq<nat>, txns: seq<Params>, values: nat -> Values, u: nat)
    requires RunsBatch(c, txns, values) && u < |txns|
    requires forall j | 0 <= j < |schedule| :: schedule[j] < NumUnits(c.job)
    requires Finished(c, Run(c, schedule))
    ensures |c.loc| == |c.job.ops| && |c.job.start| > 0 && u < NumUnits(c.job)
    ensures Seen(c, schedule, u) ==
            SeenAt(SerialBatch(txns, values, C_BALANCE, c.job.width, Db(c)), u, |Program(txns[u])|)
  {
    hide Run, TpccJob, TpccLane, Program, SerialRun, WellFormed, HandOff, Db, Money.First;
    var b := SerialBatch(txns, values, C_BALANCE, c.job.width, Db(c));
    DroppedJob(txns, values, c.job.width, Db(c));
    Money.JobShape(txns, LaneIn(b), c.job.width, u);
    ReadsAreSerial(c, schedule, u);
  }

  /** An OrderStatus sees the customer, the order and the order's lines as the transactions before it
      left them. */
  lemma {:induction false} OrderStatusSees(c: Config, schedule: seq<nat>, txns: seq<Params>, values: nat -> Values,
                                           u: nat, j: nat, i: nat)
    requires RunsBatch(c, txns, values) && u < |txns| && txns[u].OrderStatus?
    requires forall n | 0 <= n < |schedule| :: schedule[n] < NumUnits(c.job)
    requires Finished(c, Run(c, schedule))
    requires |c.loc| == |c.job.ops| && |c.job.start| > 0 && u < NumUnits(c.job)
    ensures var t, r, seen := txns[u], RunIn(c, txns, values), Seen(c, schedule, u);
            && |seen| == 2 + |t.orderLines|
            && (i < c.job.width(CUSTOMER) ==> WordIn(seen[0], i) == WordAfter(r, u, Key(CUSTOMER, t.customer), i))
            && (i < c.job.width(ORDER) ==> WordIn(seen[1], i) == WordAfter(r, u, Key(ORDER, t.order), i))
            && (j < |t.orderLines| && i < c.job.width(ORDER_LINE) ==>
                  WordIn(seen[2 + j], i) == WordAfter(r, u, Key(ORDER_LINE, t.orderLines[j]), i))
  {
    hide Run, RunsBatch, Program, WordIn, WordAfter, RowOf, SeenAt, Db, Money.Sized, Finished, Seen;
    var t, b := txns[u], SerialBatch(txns, values, C_BALANCE, c.job.width, Db(c));
    SeenIsSerial(c, schedule, txns, values, u);
    ReaderSees(b, u, |Program(t)|);
    OrderStatusReads(t, j);
    DbSized(c);
    if i < c.job.width(CUSTOMER) { WordsHold(b, u, Key(CUSTOMER, t.customer), i); }
    if i < c.job.width(ORDER) { WordsHold(b, u, Key(ORDER, t.order), i); }
    if j < |t.orderLines| && i < c.job.width(ORDER_LINE) {
      assert Program(t)[2 + j] == Touch(ORDER_LINE, t.orderLines[j], false, 2 + j);
      WordsHold(b, u, Key(ORDER_LINE, t.orderLines[j]), i);
    }
  }

  /** What the lane of the quantity counts of the first n rows read. */
  function LowStock(seen: seq<Row>, threshold: nat, n: nat): nat
    requires n <= |seen|
  {
    if n == 0 then 0
    else LowStock(seen, threshold, n - 1) + if WordIn(seen[n - 1], S_QUANTITY) < threshold then 1 else 0
  }

  /** How many of the first n stock rows are low when the first u transactions have run. */
  function LowAfter(r: WordRun, u: nat, stocks: seq<nat>, threshold: nat, n: nat): nat
    requires u <= |r.txns| && n <= |stocks|
  {
    if n == 0 then 0
    else
      var quantity := Quantity(r.begin(Key(STOCK, stocks[n - 1]), S_QUANTITY), Orders(r, stocks[n - 1], u));
      LowAfter(r, u, stocks, threshold, n - 1) + if quantity < threshold then 1 else 0
  }

  lemma {:induction false} LowCounted(r: WordRun, u: nat, stocks: seq<nat>, seen: seq<Row>, threshold: nat, n: nat)
    requires u <= |r.txns| && n <= |stocks| == |seen|
    requires forall j: nat | j < |stocks| ::
               WordIn(seen[j], S_QUANTITY) == WordAfter(r, u, Key(STOCK, stocks[j]), S_QUANTITY)
    ensures LowStock(seen, threshold, n) == LowAfter(r, u, stocks, threshold, n)
    decreases n
  {
    hide WordIn, WordAfter, Quantity, Orders;
    if n > 0 {
      LowCounted(r, u, stocks, seen, threshold, n - 1);
      QuantityIs(r, stocks[n - 1], u);
    }
  }

  /** In every interleaving a StockLevel counts the stock rows that are low once the orders of the
      transactions before it have been deducted, and no later ones. */
  lemma {:induction false} StockLevelCounts(c: Config, schedule: seq<nat>, txns: seq<Params>, values: nat -> Values,
                                            u: nat, threshold: nat)
    requires RunsBatch(c, txns, values) && u < |txns| && txns[u].StockLevel? && S_QUANTITY < c.job.width(STOCK)
    requires forall n | 0 <= n < |schedule| :: schedule[n] < NumUnits(c.job)
    requires Finished(c, Run(c, schedule))
    requires |c.loc| == |c.job.ops| && |c.job.start| > 0 && u < NumUnits(c.job)
    ensures var stocks, seen := txns[u].stocks, Seen(c, schedule, u);
            && |seen| == |stocks|
            && LowStock(seen, threshold, |seen|) ==
               LowAfter(RunIn(c, txns, values), u, stocks, threshold, |stocks|)
  {
    hide Run, RunsBatch, Program, WordIn, WordAfter, RowOf, SeenAt, Db, Money.Sized, Finished, Seen;
    var t, b := txns[u], SerialBatch(txns, values, C_BALANCE, c.job.width, Db(c));
    SeenIsSerial(c, schedule, txns, values, u);
    ReaderSees(b, u, |Program(t)|);
    StockLevelReads(t, 0);
    DbSized(c);
    forall j: nat | j < |t.stocks| ensures
        WordIn(Seen(c, schedule, u)[j], S_QUANTITY) ==
        WordAfter(RunIn(c, txns, values), u, Key(STOCK, t.stocks[j]), S_QUANTITY)
    {
      StockLevelReads(t, j);
      assert Program(t)[j] == Touch(STOCK, t.stocks[j], false, j);
      WordsHold(b, u, Key(STOCK, t.stocks[j]), S_QUANTITY);
    }
    LowCounted(RunIn(c, txns, values), u, t.stocks, Seen(c, schedule, u), threshold, |t.stocks|);
  }
}
