/** From generated transactions to indexed ones: the batch index answers the queries, the rows of the
    batch are added, and every transaction gets the rows that it is about when the transactions run
    one after the other.  Such a batch meets what execution requires of it. */
module IndexedEpochs {
  import opened BatchIndex
  import opened DeliveryShortcut
  import opened RowIndex
  import opened TpccEpoch
  import opened TpccGenerator
  import opened TpccIndex
  import opened TpccKeys
  import opened TpccSubmitter
  import Stocks = StockLevel

  ghost predicate Known(ins: seq<Input>, initial: Initial, warehouses: nat) {
    Generated(ins) && InputsFit(ins, warehouses) && InitialOk(initial)
  }

  lemma KnownInput(ins: seq<Input>, initial: Initial, warehouses: nat, i: nat)
    requires Known(ins, initial, warehouses) && i < |ins|
    ensures ins[i].NewOrderInput? ==> |ins[i].supply| == |ins[i].items|
    ensures ins[i].StockLevelInput? ==> ins[i].oId >= 20
  {
    assert IdIsRight(ins, i);
  }

  /** t is transaction i with its rows. */
  ghost predicate HasRows(found: Found, s: StaticRows, ins: seq<Input>, initial: Initial, warehouses: nat, i: nat,
                          t: Params)
    requires Known(ins, initial, warehouses) && i < |ins|
  {
    KnownInput(ins, initial, warehouses, i);
    t == ParamsOf(found, s, ins, initial, i)
  }

  /** txns are the transactions from first on, with their rows. */
  ghost predicate IndexedFrom(found: Found, s: StaticRows, ins: seq<Input>, initial: Initial, warehouses: nat,
                              first: nat, txns: seq<Params>)
    requires Known(ins, initial, warehouses)
  {
    && first + |txns| <= |ins| && HasKeys(found, warehouses, ins, first + |txns|)
    && forall u: nat | u < |txns| :: HasRows(found, s, ins, initial, warehouses, first + u, txns[u])
  }

  // ------------------------------------------------------------------ what such a batch is like

  lemma {:induction false} NewestFits(ins: seq<Input>, initial: Initial, warehouses: nat, w: nat, d: nat, c: nat,
                                      i: nat)
    requires i <= |ins| && InputsFit(ins, warehouses) && InitialOk(initial)
    ensures |NewestItems(ins, initial, w, d, c, i)| <= INITIAL_ITEMS
    decreases i
  {
    if i > 0 { NewestFits(ins, initial, warehouses, w, d, c, i - 1); }
  }

  lemma {:induction false} RecentFits(ins: seq<Input>, initial: Initial, warehouses: nat, w: nat, d: nat, o: nat,
                                      k: nat,
                                      i: nat)
    requires i <= |ins| && k <= o && InputsFit(ins, warehouses) && InitialOk(initial)
    ensures |Recent(ins, initial, w, d, o, k, i)| <= k * INITIAL_ITEMS
    decreases k
  {
    if k > 0 {
      RecentFits(ins, initial, warehouses, w, d, o, k - 1, i);
      OrderFits(ins, warehouses, initial, w, d, o - (k - 1), i);
      hide InputsFit, InitialOk, ItemsOf;
    }
  }

  /** The parameters of an indexed transaction fit their structures. */
  lemma {:induction false} ParamsFit(found: Found, s: StaticRows, ins: seq<Input>, initial: Initial, warehouses: nat,
                                     i: nat)
    requires Known(ins, initial, warehouses) && i < |ins|
    requires ins[i].NewOrderInput? ==> |ins[i].supply| == |ins[i].items|
    requires ins[i].StockLevelInput? ==> ins[i].oId >= 20
    ensures Fits(ParamsOf(found, s, ins, initial, i))
  {
    match ins[i]
    case NewOrderInput(_, _, _, _, _, _) =>
    case PaymentInput(_, _, _, _, _) =>
    case OrderStatusInput(w, d, c, _) => NewestFits(ins, initial, warehouses, w, d, c, i);
    case DeliveryInput(w, oId) =>
      forall e: nat | e < 10
             ensures |EntriesRows(found, s, ins, initial, w, oId, i, 10)[e].orderLines| <= INITIAL_ITEMS {
        OrderFits(ins, warehouses, initial, w, e + 1, oId, i);
      }
    case StockLevelInput(w, d, oId) =>
      RecentFits(ins, initial, warehouses, w, d, oId, 20, i);
      Stocks.SortedIsSorted(Recent(ins, initial, w, d, oId, 20, i));
  }

  /** An indexed transaction writes order lines under rows that are in the index. */
  lemma {:induction false} ParamsAreIndexed(found: Found, s: StaticRows, ins: seq<Input>, initial: Initial,
                                            warehouses: nat, i: nat, n: nat)
    requires Known(ins, initial, warehouses) && i < n <= |ins| && HasKeys(found, warehouses, ins, n)
    requires ins[i].NewOrderInput? ==> |ins[i].supply| == |ins[i].items|
    requires ins[i].StockLevelInput? ==> ins[i].oId >= 20
    ensures Indexed(found.lines, ins[i], ParamsOf(found, s, ins, initial, i))
  {
    match ins[i]
    case NewOrderInput(_, _, _, _, _, _) =>
      OwnKeys(found, warehouses, ins, i, n);
    case PaymentInput(_, _, _, _, _) =>
    case OrderStatusInput(_, _, _, _) =>
    case DeliveryInput(w, oId) => EntriesAreIndexed(found, s, ins, initial, warehouses, w, oId, i, n);
    case StockLevelInput(_, _, _) =>
  }

  lemma {:induction false} EntriesAreIndexed(found: Found, s: StaticRows, ins: seq<Input>, initial: Initial,
                                             warehouses: nat, w: nat, oId: nat, i: nat, n: nat)
    requires Known(ins, initial, warehouses) && i < n <= |ins| && HasKeys(found, warehouses, ins, n)
    requires ins[i] == DeliveryInput(w, oId)
    ensures Indexed(found.lines, ins[i], Delivery(EntriesRows(found, s, ins, initial, w, oId, i, 10)))
  {
    assert IdIsRight(ins, i) && HasOrder(ins, w, oId, i);
    var entries := EntriesRows(found, s, ins, initial, w, oId, i, 10);
    forall e: nat, l: nat | e < 10 && l < |entries[e].orderLines|
      ensures var k := LineOf(OrderId(w, e + 1, oId), l); k in found.lines && entries[e].orderLines[l] == found.lines[k]
    {
      assert oId < CurrOId(ins, w, e + 1, i);
      OrderHasKeys(found, warehouses, ins, initial, w, e + 1, oId, i, n);
      hide HasKeys;
    }
    hide HasKeys, Known, EntriesRows;
  }

  /** Every indexed batch of every generated run fits, and its Deliveries are the last to write the
      lines that they deliver: it meets what TpccEpoch.RunEpoch requires of a batch. */
  lemma {:induction false} IndexedBatchesAreFine(found: Found, s: StaticRows, ins: seq<Input>, initial: Initial,
                                                 warehouses: nat, first: nat, txns: seq<Params>)
    requires Known(ins, initial, warehouses) && IndexedFrom(found, s, ins, initial, warehouses, first, txns)
    ensures AllFit(txns) && DeliveredLast(txns)
  {
    hide Indexed, Fits, ParamsOf, Generated;
    forall u: nat | u < |txns| ensures Fits(txns[u]) && Indexed(found.lines, ins[first + u], txns[u]) {
      KnownInput(ins, initial, warehouses, first + u);
      assert HasRows(found, s, ins, initial, warehouses, first + u, txns[u]);
      hide ParamsOf, HasKeys, Known;
      ParamsFit(found, s, ins, initial, warehouses, first + u);
      ParamsAreIndexed(found, s, ins, initial, warehouses, first + u, first + |txns|);
    }
    GeneratedBatchesDeliverLast(found.lines, ins, first, txns);
  }

  // ------------------------------------------------------------------ indexing a batch

  /** The two indexes are about the same warehouses, and share nothing with the buffer in which the
      items of a StockLevel are gathered. */
  ghost predicate Compatible(aux: AuxIndex, index: TpccGpuIndex, stockIds: array<nat>) {
    && aux.warehouses == index.config.numWarehouses && stockIds.Length == Stocks.STOCK_IDS
    && stockIds != aux.orderNumItems && stockIds != aux.orderCustomers
    && stockIds != index.orderIndex.freeRows && stockIds != index.newOrderIndex.freeRows
    && stockIds != index.orderLineIndex.freeRows
    && aux.orderNumItems != index.orderIndex.freeRows && aux.orderNumItems != index.newOrderIndex.freeRows
    && aux.orderNumItems != index.orderLineIndex.freeRows
    && aux.orderCustomers != index.orderIndex.freeRows && aux.orderCustomers != index.newOrderIndex.freeRows
    && aux.orderCustomers != index.orderLineIndex.freeRows
  }

  /** The stock rows, in the StockLevel's own warehouse, of the items that StockLevel i sees. */
  ghost predicate StocksAre(rows: seq<nat>, ins: seq<Input>, initial: Initial, i: nat, s: StaticRows)
    requires i < |ins| && ins[i].StockLevelInput? && ins[i].oId >= 20
  {
    var items := Stocks.ItemsSeen(ins, initial, ins[i].w, ins[i].d, ins[i].oId, i);
    |rows| == |items| && forall j: nat | j < |rows| :: rows[j] == s.stock(ins[i].w, items[j])
  }

  /** Transaction i, after all of its epoch's orders have been inserted. */
  method IndexTxn(aux: AuxIndex, index: TpccGpuIndex, ghost ins: seq<Input>, ghost initial: Initial, ghost n: nat,
                  ghost i: nat, txn: Input, s: StaticRows, stockIds: array<nat>) returns (t: Params)
    requires Known(ins, initial, aux.warehouses) && i < n <= |ins| && txn == ins[i] && Compatible(aux, index, stockIds)
    requires aux.Holds(ins, initial, Range(0, n)) && HasKeys(index.FoundRows(), aux.warehouses, ins, n)
    modifies stockIds
    ensures HasRows(index.FoundRows(), s, ins, initial, aux.warehouses, i, t)
    ensures txn.StockLevelInput? ==> txn.oId >= 20 && t.StockLevel? && StocksAre(t.stocks, ins, initial, i, s)
  {
    KnownInput(ins, initial, aux.warehouses, i);
    hide HasKeys, TreeHolds, CacheHolds;
    match txn
    case NewOrderInput(_, _, _, _, _, _) => t := index.IndexNewOrder(ins, n, i, txn, s);
    case PaymentInput(_, _, _, _, _) => t := index.IndexPayment(ins, i, txn, s);
    case OrderStatusInput(_, _, _, _) =>
      var oId, numItems := aux.OrderStatus(ins, initial, i, Range(0, n), txn);
      t := index.IndexOrderStatus(ins, initial, n, i, txn, s, oId, numItems);
    case DeliveryInput(_, _) =>
      var numItems, customers := aux.Delivery(ins, initial, i, Range(0, n), txn);
      t := index.IndexDelivery(ins, initial, n, i, txn, s, numItems, customers);
    case StockLevelInput(w, _, _) =>
      var numItems := Stocks.IndexTxn(aux, ins, initial, i, Range(0, n), txn, stockIds, (x: nat) => s.stock(w, x));
      t := StockLevel(stockIds[..numItems]);
  }

  /** Inserts the orders of epoch e into both indexes. */
  method InsertEpoch(aux: AuxIndex, index: TpccGpuIndex, ghost ins: seq<Input>, ghost initial: Initial,
                     ghost first: nat, ghost e: nat, batch: seq<Input>, ghost stockIds: array<nat>)
    requires Known(ins, initial, aux.warehouses) && Compatible(aux, index, stockIds)
    requires first + |batch| <= |ins| && batch == ins[first..first + |batch|]
    requires aux.Holds(ins, initial, Range(0, first)) && index.Holds(ins, first, e)
    requires e < index.config.epochs && |batch| <= index.config.numTxns
    modifies aux`tree, aux.orderNumItems, aux.orderCustomers, aux.orderItems
    modifies index.orderIndex, index.orderIndex.insert, index.orderIndex.validInsert
    modifies index.newOrderIndex, index.newOrderIndex.insert, index.newOrderIndex.validInsert
    modifies index.orderLineIndex, index.orderLineIndex.insert, index.orderLineIndex.validInsert
    ensures aux.Holds(ins, initial, Range(0, first + |batch|)) && index.Holds(ins, first + |batch|, e + 1)
  {
    hide HasKeys, TreeHolds, CacheHolds, InputsFit, HasRoom, Generated, Sized;
    aux.InsertTxnUpdates(ins, initial, Range(0, first), first, batch);
    assert Range(0, first) + Range(first, first + |batch|) == Range(0, first + |batch|);
    index.InsertBatch(ins, first, e, batch);
  }

  /** The batch of epoch e, which begins at transaction first: first all orders are inserted, then
      every transaction is indexed. */
  method IndexTxns(aux: AuxIndex, index: TpccGpuIndex, ghost ins: seq<Input>, ghost initial: Initial, ghost first: nat,
                   ghost e: nat, batch: seq<Input>, s: StaticRows, stockIds: array<nat>) returns (txns: seq<Params>)
    requires Known(ins, initial, aux.warehouses) && Compatible(aux, index, stockIds)
    requires first + |batch| <= |ins| && batch == ins[first..first + |batch|]
    requires aux.Holds(ins, initial, Range(0, first)) && index.Holds(ins, first, e)
    requires e < index.config.epochs && |batch| <= index.config.numTxns
    modifies aux`tree, aux.orderNumItems, aux.orderCustomers, aux.orderItems, stockIds
    modifies index.orderIndex, index.orderIndex.insert, index.orderIndex.validInsert
    modifies index.newOrderIndex, index.newOrderIndex.insert, index.newOrderIndex.validInsert
    modifies index.orderLineIndex, index.orderLineIndex.insert, index.orderLineIndex.validInsert
    ensures aux.Holds(ins, initial, Range(0, first + |batch|)) && index.Holds(ins, first + |batch|, e + 1)
    ensures |txns| == |batch| && IndexedFrom(index.FoundRows(), s, ins, initial, aux.warehouses, first, txns)
    ensures AllFit(txns) && DeliveredLast(txns)
  {
    hide ParamsOf, HasKeys, Known, AllFit, DeliveredLast, TreeHolds, CacheHolds, HasRoom;
    InsertEpoch(aux, index, ins, initial, first, e, batch, stockIds);
    txns := IndexInserted(aux, index, ins, initial, first, e + 1, batch, s, stockIds);
    IndexedBatchesAreFine(index.FoundRows(), s, ins, initial, aux.warehouses, first, txns);
  }

  method IndexInserted(aux: AuxIndex, index: TpccGpuIndex, ghost ins: seq<Input>, ghost initial: Initial,
                       ghost first: nat, ghost e: nat, batch: seq<Input>, s: StaticRows, stockIds: array<nat>)
    returns (txns: seq<Params>)
    requires Known(ins, initial, aux.warehouses) && Compatible(aux, index, stockIds)
    requires first + |batch| <= |ins| && batch == ins[first..first + |batch|]
    requires aux.Holds(ins, initial, Range(0, first + |batch|)) && index.Holds(ins, first + |batch|, e)
    modifies stockIds
    ensures aux.Holds(ins, initial, Range(0, first + |batch|)) && index.Holds(ins, first + |batch|, e)
    ensures |txns| == |batch| && IndexedFrom(index.FoundRows(), s, ins, initial, aux.warehouses, first, txns)
  {
    hide HasKeys, TreeHolds, CacheHolds, InputsFit, HasRoom, Generated, Sized, HasRows;
    ghost var n := first + |batch|;
    txns := [];
    for u := 0 to |batch|
      invariant |txns| == u && aux.Holds(ins, initial, Range(0, n)) && index.Holds(ins, n, e)
      invariant forall v: nat | v < u ::
                  HasRows(index.FoundRows(), s, ins, initial, aux.warehouses, first + v, txns[v])
    {
      var t := IndexTxn(aux, index, ins, initial, n, first + u, batch[u], s, stockIds);
      txns := txns + [t];
    }
  }

  // ------------------------------------------------------------------ the whole run

  /** The order ids of the run have slots in the cache. */
  ghost predicate SlotsSuffice(ins: seq<Input>, slots: nat) {
    slots > INITIAL_ORDERS && forall j: nat | j < |ins| && ins[j].NewOrderInput? :: ins[j].oId < slots
  }

  method LoadIndexes(config: TpccConfig, slots: nat, initial: Initial, ghost ins: seq<Input>, s: StaticRows)
    returns (aux: AuxIndex, index: TpccGpuIndex, stockIds: array<nat>)
    requires Known(ins, initial, config.numWarehouses) && SlotsSuffice(ins, slots)
    ensures aux.Holds(ins, initial, {}) && index.Holds(ins, 0, 0) && index.config == config
    ensures Compatible(aux, index, stockIds) && fresh(stockIds)
    ensures fresh(aux) && fresh(aux.orderNumItems) && fresh(aux.orderCustomers) && fresh(aux.orderItems)
    ensures fresh(index.orderIndex.freeRows) && fresh(index.newOrderIndex.freeRows)
    ensures fresh(index.orderLineIndex.freeRows)
    ensures fresh(index.orderIndex) && fresh(index.orderIndex.insert) && fresh(index.orderIndex.validInsert)
    ensures fresh(index.newOrderIndex) && fresh(index.newOrderIndex.insert) && fresh(index.newOrderIndex.validInsert)
    ensures fresh(index.orderLineIndex) && fresh(index.orderLineIndex.insert) && fresh(index.orderLineIndex.validInsert)
  {
    hide HasKeys, TreeHolds, CacheHolds, HasRoom, Generated, Sized;
    aux := new AuxIndex(config.numWarehouses, slots, initial);
    LoadServesEveryRun(aux.tree, aux.Orders(), slots, config.numWarehouses, initial, ins);
    index := new TpccGpuIndex(config);
    KeysServeEveryRun(index.FoundRows(), config.numWarehouses, ins);
    stockIds := new nat[Stocks.STOCK_IDS];
  }

  ghost predicate InTables(found: Found, config: TpccConfig) {
    && Below(found.orders, config.OrderTableSize()) && Below(found.newOrders, config.NewOrderTableSize())
    && Below(found.lines, config.OrderLineTableSize())
  }

  /** In every epoch of the run all row ids are below the sizes of their tables. */
  lemma {:induction false} RowsInTables(index: TpccGpuIndex, ins: seq<Input>, n: nat, e: nat)
    requires n <= |ins| && 0 < e <= index.config.epochs && index.Holds(ins, n, e)
    ensures InTables(index.FoundRows(), index.config)
  {
    RoomForEpoch(index.config, e - 1);
    hide HasKeys;
  }

  /** Epoch e has been indexed. */
  ghost predicate EpochIndexed(config: TpccConfig, found: Found, s: StaticRows, ins: seq<Input>, initial: Initial,
                               e: nat, txns: seq<Params>)
  {
    && Known(ins, initial, config.numWarehouses)
    && IndexedFrom(found, s, ins, initial, config.numWarehouses, e * config.numTxns, txns)
    && |txns| == config.numTxns && AllFit(txns) && DeliveredLast(txns) && InTables(found, config)
  }

  /** Indexes epoch e of a run in which every epoch has the same number of transactions. */
  method IndexEpoch(config: TpccConfig, aux: AuxIndex, index: TpccGpuIndex, ghost initial: Initial, ins: seq<Input>,
                    e: nat, s: StaticRows, stockIds: array<nat>) returns (txns: seq<Params>)
    requires Known(ins, initial, config.numWarehouses) && Compatible(aux, index, stockIds) && index.config == config
    requires e < config.epochs && e * config.numTxns + config.numTxns <= |ins|
    requires aux.Holds(ins, initial, Range(0, e * config.numTxns)) && index.Holds(ins, e * config.numTxns, e)
    modifies aux`tree, aux.orderNumItems, aux.orderCustomers, aux.orderItems, stockIds
    modifies index.orderIndex, index.orderIndex.insert, index.orderIndex.validInsert
    modifies index.newOrderIndex, index.newOrderIndex.insert, index.newOrderIndex.validInsert
    modifies index.orderLineIndex, index.orderLineIndex.insert, index.orderLineIndex.validInsert
    ensures aux.Holds(ins, initial, Range(0, e * config.numTxns + config.numTxns))
    ensures index.Holds(ins, e * config.numTxns + config.numTxns, e + 1)
    ensures EpochIndexed(config, index.FoundRows(), s, ins, initial, e, txns)
  {
    hide Known, HasKeys, AllFit, DeliveredLast, InTables, IndexedFrom, EpochIndexed;
    hide AuxIndex.Holds, TpccGpuIndex.Holds;
    var first := e * config.numTxns;
    txns := IndexTxns(aux, index, ins, initial, first, e, ins[first..first + config.numTxns], s, stockIds);
    RowsInTables(index, ins, first + config.numTxns, e + 1);
    IsIndexed(config, index.FoundRows(), s, ins, initial, e, txns);
  }

  /** txns is epoch e of the run, under some rows that fit the tables. */
  ghost predicate IsEpochOf(config: TpccConfig, s: StaticRows, ins: seq<Input>, initial: Initial, e: nat,
                            txns: seq<Params>)
  {
    exists found :: EpochIndexed(config, found, s, ins, initial, e, txns)
  }

  /** Both indexes and the buffer for the items of a StockLevel. */
  class Indexes {
    const config: TpccConfig
    const aux: AuxIndex
    const index: TpccGpuIndex
    const stockIds: array<nat>
    ghost const Repr: set<object>

    /** The orders of the first e epochs are in both indexes. */
    ghost predicate Holds(ins: seq<Input>, initial: Initial, e: nat)
      reads Repr
    {
      && {aux, aux.orderNumItems, aux.orderCustomers, aux.orderItems, stockIds} <= Repr
      && {index.orderIndex, index.orderIndex.insert, index.orderIndex.validInsert, index.orderIndex.freeRows} <= Repr
      && {index.newOrderIndex, index.newOrderIndex.insert, index.newOrderIndex.validInsert} <= Repr
      && {index.orderLineIndex, index.orderLineIndex.insert, index.orderLineIndex.validInsert} <= Repr
      && {index.newOrderIndex.freeRows, index.orderLineIndex.freeRows} <= Repr
      && index.config == config && Compatible(aux, index, stockIds) && e * config.numTxns <= |ins|
      && aux.Holds(ins, initial, Range(0, e * config.numTxns)) && index.Holds(ins, e * config.numTxns, e)
    }

    /** The initial load. */
    constructor (config: TpccConfig, slots: nat, initial: Initial, ghost ins: seq<Input>, s: StaticRows)
      requires Known(ins, initial, config.numWarehouses) && SlotsSuffice(ins, slots)
      ensures this.config == config && Holds(ins, initial, 0) && fresh(Repr)
    {
      hide HasKeys, TreeHolds, CacheHolds, HasRoom, Sized, SlotsSuffice, InputsFit, Generated, Known;
      var aux, index, stockIds := LoadIndexes(config, slots, initial, ins, s);
      this.config, this.aux, this.index, this.stockIds := config, aux, index, stockIds;
      Repr := {aux, aux.orderNumItems, aux.orderCustomers, aux.orderItems, stockIds,
               index.orderIndex, index.orderIndex.insert, index.orderIndex.validInsert, index.orderIndex.freeRows,
               index.newOrderIndex, index.newOrderIndex.insert, index.newOrderIndex.validInsert,
               index.orderLineIndex, index.orderLineIndex.insert, index.orderLineIndex.validInsert,
               index.newOrderIndex.freeRows, index.orderLineIndex.freeRows};
      new;
      assert Range(0, 0) == {};
    }

    method IndexNext(ghost initial: Initial, ins: seq<Input>, e: nat, s: StaticRows) returns (txns: seq<Params>)
      requires Known(ins, initial, config.numWarehouses) && |ins| == config.epochs * config.numTxns
      requires e < config.epochs && Holds(ins, initial, e)
      modifies Repr
      ensures Holds(ins, initial, e + 1) && IsEpochOf(config, s, ins, initial, e, txns)
    {
      hide HasKeys, TreeHolds, CacheHolds, HasRoom, Sized, InputsFit, Generated, Known, EpochIndexed;
      NextBatch(config.numTxns, e, config.epochs);
      txns := IndexEpoch(config, aux, index, initial, ins, e, s, stockIds);
    }
  }

  /** From the initial load on, every epoch of the run can be indexed: no lookup fails, the free rows
      suffice, and every batch is fit to be executed. */
  method IndexRun(config: TpccConfig, slots: nat, initial: Initial, ins: seq<Input>, s: StaticRows)
    returns (batches: seq<seq<Params>>)
    requires Known(ins, initial, config.numWarehouses) && SlotsSuffice(ins, slots)
    requires |ins| == config.epochs * config.numTxns
    ensures |batches| == config.epochs
    ensures forall e: nat | e < config.epochs :: IsEpochOf(config, s, ins, initial, e, batches[e])
  {
    hide Known, SlotsSuffice, IsEpochOf, Indexes.Holds;
    var indexes := new Indexes(config, slots, initial, ins, s);
    batches := [];
    for e := 0 to config.epochs
      invariant indexes.Holds(ins, initial, e) && |batches| == e
      invariant forall d: nat | d < e :: IsEpochOf(config, s, ins, initial, d, batches[d])
    {
      var txns := indexes.IndexNext(initial, ins, e, s);
      batches := batches + [txns];
    }
  }

  lemma {:induction false} NextBatch(n: nat, e: nat, epochs: nat)
    requires e < epochs
    ensures e * n + n == (e + 1) * n <= epochs * n
  {
    var left := epochs - (e + 1);
    assert epochs * n == (e + 1) * n + left * n;
    assert left * n >= 0;
  }

  lemma IsIndexed(config: TpccConfig, found: Found, s: StaticRows, ins: seq<Input>, initial: Initial, e: nat,
                  txns: seq<Params>)
    requires Known(ins, initial, config.numWarehouses)
    requires IndexedFrom(found, s, ins, initial, config.numWarehouses, e * config.numTxns, txns)
    requires |txns| == config.numTxns && AllFit(txns) && DeliveredLast(txns) && InTables(found, config)
    ensures EpochIndexed(config, found, s, ins, initial, e, txns)
  {
    hide Known, IndexedFrom, AllFit, DeliveredLast, InTables;
  }
}
