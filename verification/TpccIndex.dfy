/** Indexing: the rows that a batch adds get row ids, and every transaction's keys are replaced by row
    ids.  No lookup fails, and no row id exceeds its table. */
module TpccIndex {
  import opened BatchIndex
  import opened RowIndex
  import opened TpccGenerator
  import opened TpccKeys
  import opened TpccSubmitter
  import opened TpccTables
  import Stocks = StockLevel

  /** The rows of the tables that are only loaded. */
  datatype StaticRows = StaticRows(warehouse: nat -> nat, district: (nat, nat) -> nat, customer: (nat, nat, nat) -> nat,
                                   item: nat -> nat, stock: (nat, nat) -> nat)

  function RowOf<K(==)>(rows: map<K, nat>, k: K): nat { if k in rows then rows[k] else 0 }

  /** The rows of the first n lines of an order. */
  function LineRows(lines: map<LineKey, nat>, k: OrderId, n: nat): (rows: seq<nat>)
    ensures |rows| == n && forall l: nat | l < n :: rows[l] == RowOf(lines, LineOf(k, l))
  {
    seq(n, l requires 0 <= l < n => RowOf(lines, LineOf(k, l)))
  }

  function ItemRows(found: Found, s: StaticRows, x: Input): (rows: seq<Item>)
    requires x.NewOrderInput? && |x.supply| == |x.items|
    ensures |rows| == |x.items| && forall l: nat | l < |rows| :: rows[l] == ItemRow(found, s, x, l)
  {
    seq(|x.items|, l requires 0 <= l < |x.items| => ItemRow(found, s, x, l))
  }

  function ItemRow(found: Found, s: StaticRows, x: Input, l: nat): Item
    requires x.NewOrderInput? && l < |x.supply| == |x.items|
  {
    Item(RowOf(found.lines, LineOf(OrderId(x.w, x.d, x.oId), l)), s.stock(x.supply[l], x.items[l]), s.item(x.items[l]))
  }

  /** What entry e of a Delivery delivers: the order that the generator chose, as it was placed by
      the transactions before the Delivery. */
  function EntryRows(found: Found, s: StaticRows, ins: seq<Input>, initial: Initial, w: nat, d: nat, o: nat, i: nat):
      Delivered
    requires i <= |ins|
  {
    var k := OrderId(w, d, o);
    Delivered(RowOf(found.newOrders, k), RowOf(found.orders, k), s.customer(w, d, CustomerOf(ins, w, d, o, i)),
      LineRows(found.lines, k, |ItemsOf(ins, initial, w, d, o, i)|))
  }

  function EntriesRows(found: Found, s: StaticRows, ins: seq<Input>, initial: Initial, w: nat, o: nat, i: nat, n: nat):
      (rows: seq<Delivered>)
    requires i <= |ins|
    ensures |rows| == n && forall e: nat | e < n :: rows[e] == EntryRows(found, s, ins, initial, w, e + 1, o, i)
  {
    seq(n, e requires 0 <= e < n => EntryRows(found, s, ins, initial, w, e + 1, o, i))
  }

  /** The rows that transaction i is about when the transactions run one after the other. */
  function ParamsOf(found: Found, s: StaticRows, ins: seq<Input>, initial: Initial, i: nat): Params
    requires i < |ins| && (ins[i].NewOrderInput? ==> |ins[i].supply| == |ins[i].items|)
    requires ins[i].StockLevelInput? ==> ins[i].oId >= 20
  {
    match ins[i]
    case NewOrderInput(w, d, c, oId, items, supply) =>
      NewOrder(s.warehouse(w), s.district(w, d), s.customer(w, d, c), RowOf(found.newOrders, OrderId(w, d, oId)),
        RowOf(found.orders, OrderId(w, d, oId)), ItemRows(found, s, ins[i]))
    case PaymentInput(w, d, cw, cd, c) => Payment(s.warehouse(w), s.district(w, d), s.customer(cw, cd, c))
    case OrderStatusInput(w, d, c, _) =>
      var k := OrderId(w, d, NewestOrder(ins, w, d, c, i));
      OrderStatus(s.customer(w, d, c), RowOf(found.orders, k),
        LineRows(found.lines, k, |NewestItems(ins, initial, w, d, c, i)|))
    case DeliveryInput(w, oId) => Delivery(EntriesRows(found, s, ins, initial, w, oId, i, 10))
    case StockLevelInput(w, d, oId) =>
      StockLevel(Stocks.Rows(Stocks.ItemsSeen(ins, initial, w, d, oId, i), (x: nat) => s.stock(w, x)))
  }

  // ------------------------------------------------------------------ every key is there

  ghost predicate HasLines(rows: map<LineKey, nat>, k: OrderId, lines: nat) {
    forall l: nat | l < lines :: LineOf(k, l) in rows
  }

  /** The rows under which the first n lines of an order are found: they are numbered from 1. */
  ghost predicate LinesAre(rows: seq<nat>, lines: map<LineKey, nat>, k: OrderId, n: nat) {
    |rows| == n && forall l: nat | l < n :: LineIs(rows, lines, k, l)
  }

  ghost predicate LineIs(rows: seq<nat>, lines: map<LineKey, nat>, k: OrderId, l: nat)
    requires l < |rows|
  {
    var line := LineKey(k.w, k.d, k.o, l + 1);
    line in lines && rows[l] == lines[line]
  }

  lemma LinesFound(rows: seq<nat>, lines: map<LineKey, nat>, k: OrderId, n: nat)
    requires rows == LineRows(lines, k, n) && HasLines(lines, k, n)
    ensures LinesAre(rows, lines, k, n)
  {
    forall l: nat | l < n ensures LineIs(rows, lines, k, l) {
      assert LineOf(k, l) in lines && rows[l] == RowOf(lines, LineOf(k, l));
    }
  }

  ghost predicate HasOrderKeys(found: Found, k: OrderId, lines: nat) {
    && k in found.orders
    && HasLines(found.lines, k, lines)
  }

  lemma {:induction false} OwnKeys(found: Found, warehouses: nat, ins: seq<Input>, i: nat, n: nat)
    requires i < n <= |ins| && ins[i].NewOrderInput? && HasKeys(found, warehouses, ins, n)
    ensures HasOrderKeys(found, OrderId(ins[i].w, ins[i].d, ins[i].oId), |ins[i].items|)
    ensures OrderId(ins[i].w, ins[i].d, ins[i].oId) in found.newOrders
  {
    assert Places(ins[i], OrderId(ins[i].w, ins[i].d, ins[i].oId));
    forall l: nat | l < |ins[i].items| ensures LineOf(OrderId(ins[i].w, ins[i].d, ins[i].oId), l) in found.lines {
      assert PlacesLine(ins[i], LineOf(OrderId(ins[i].w, ins[i].d, ins[i].oId), l));
    }
    hide InitialOrder, InitialNewOrder, InitialLine;
  }

  lemma InitialKeysAreThere(found: Found, warehouses: nat, ins: seq<Input>, n: nat, w: nat, d: nat, o: nat)
    requires n <= |ins| && HasKeys(found, warehouses, ins, n)
    requires 1 <= w <= warehouses && 1 <= d <= 10 && 1 <= o <= INITIAL_ORDERS
    ensures HasOrderKeys(found, OrderId(w, d, o), LINES)
    ensures o > INITIAL_DELIVERED ==> OrderId(w, d, o) in found.newOrders
  {}

  /** A customer's newest order and its lines are in the index. */
  lemma {:induction false} NewestHasKeys(found: Found, warehouses: nat, ins: seq<Input>, initial: Initial,
                                         w: nat, d: nat, c: nat, i: nat, n: nat)
    requires i <= n <= |ins| && HasKeys(found, warehouses, ins, n) && InitialOk(initial)
    requires 1 <= w <= warehouses && InBits(w, d, c)
    ensures HasOrderKeys(found, OrderId(w, d, NewestOrder(ins, w, d, c, i)), |NewestItems(ins, initial, w, d, c, i)|)
    decreases i
  {
    if i == 0 {
      InitialKeysAreThere(found, warehouses, ins, n, w, d, c);
    } else if ins[i - 1].NewOrderInput? && ins[i - 1].w == w && ins[i - 1].d == d && ins[i - 1].c == c {
      OwnKeys(found, warehouses, ins, i - 1, n);
    } else {
      NewestHasKeys(found, warehouses, ins, initial, w, d, c, i - 1, n);
    }
  }

  /** A Delivery delivers an order of every district. */
  lemma DeliversOrder(ins: seq<Input>, warehouses: nat, i: nat, d: nat)
    requires Generated(ins) && InputsFit(ins, warehouses) && i < |ins| && ins[i].DeliveryInput? && 1 <= d <= 10
    ensures 1 <= ins[i].w <= warehouses && INITIAL_DELIVERED < ins[i].oId <= CurrOId(ins, ins[i].w, d, i)
  {
    assert IdIsRight(ins, i) && HasOrder(ins, ins[i].w, ins[i].oId, i);
  }

  /** So are all orders whose ids have been handed out. */
  lemma {:induction false} OrderHasKeys(found: Found, warehouses: nat, ins: seq<Input>, initial: Initial,
                                        w: nat, d: nat, o: nat, i: nat, n: nat)
    requires i <= n <= |ins| && HasKeys(found, warehouses, ins, n) && InitialOk(initial) && Generated(ins)
    requires 1 <= w <= warehouses && 1 <= d <= 10 && 1 <= o <= CurrOId(ins, w, d, i)
    ensures HasOrderKeys(found, OrderId(w, d, o), |ItemsOf(ins, initial, w, d, o, i)|)
    ensures o > INITIAL_DELIVERED ==> OrderId(w, d, o) in found.newOrders
    decreases i
  {
    if i == 0 {
      InitialKeysAreThere(found, warehouses, ins, n, w, d, o);
    } else {
      assert IdIsRight(ins, i - 1);
      if ins[i - 1].NewOrderInput? && ins[i - 1].w == w && ins[i - 1].d == d && ins[i - 1].oId == o {
        OwnKeys(found, warehouses, ins, i - 1, n);
      } else {
        OrderHasKeys(found, warehouses, ins, initial, w, d, o, i - 1, n);
      }
    }
  }

  class TpccGpuIndex {
    const config: TpccConfig
    const orderIndex: TableIndex<OrderId>
    const newOrderIndex: TableIndex<OrderId>
    const orderLineIndex: TableIndex<LineKey>

    ghost function FoundRows(): Found
      reads orderIndex, newOrderIndex, orderLineIndex
    {
      Found(orderIndex.rows, newOrderIndex.rows, orderLineIndex.rows)
    }

    ghost predicate Separate() {
      && orderIndex != newOrderIndex
      && orderIndex.insert != newOrderIndex.insert && orderIndex.insert != newOrderIndex.validInsert
      && orderIndex.validInsert != newOrderIndex.insert && orderIndex.validInsert != newOrderIndex.validInsert
      && orderIndex.insert.Length == newOrderIndex.insert.Length == config.numTxns
      && orderLineIndex.insert.Length == LINES * config.numTxns
    }

    ghost predicate HasRoomAfter(e: nat)
      reads orderIndex, newOrderIndex, orderLineIndex
      reads orderIndex.freeRows, newOrderIndex.freeRows, orderLineIndex.freeRows
    {
      && HasRoom(orderIndex, 30000 * config.numWarehouses, config.OrderTableSize(), e * config.numTxns)
      && HasRoom(newOrderIndex, 9000 * config.numWarehouses, config.NewOrderTableSize(), e * config.numTxns)
      && HasRoom(orderLineIndex, 450000 * config.numWarehouses, config.OrderLineTableSize(),
         LINES * (e * config.numTxns))
    }

    /** The index after e epochs with n transactions in all. */
    ghost predicate Holds(ins: seq<Input>, n: nat, e: nat)
      requires n <= |ins|
      reads orderIndex, newOrderIndex, orderLineIndex
      reads orderIndex.freeRows, newOrderIndex.freeRows, orderLineIndex.freeRows
    {
      Separate() && HasRoomAfter(e) && HasKeys(FoundRows(), config.numWarehouses, ins, n)
    }

    /** Loads the initial orders, new orders and order lines. */
    constructor (config: TpccConfig)
      ensures this.config == config && Holds([], 0, 0)
      ensures fresh(orderIndex) && fresh(newOrderIndex) && fresh(orderLineIndex)
      ensures fresh(orderIndex.freeRows) && fresh(newOrderIndex.freeRows) && fresh(orderLineIndex.freeRows)
      ensures fresh(orderIndex.insert) && fresh(orderIndex.validInsert)
      ensures fresh(newOrderIndex.insert) && fresh(newOrderIndex.validInsert)
      ensures fresh(orderLineIndex.insert) && fresh(orderLineIndex.validInsert)
    {
      var orders, newOrders, lines := InitialKeys(config.numWarehouses);
      LoadedOnce(config.numWarehouses);
      hide FirstOrders, FirstNewOrders, FirstLines, HasKeys, HasRoom, Injective, AllDiffer;
      var orderTable := LoadTable(orders, config.OrderTableSize(), config.numTxns);
      var newOrderTable := LoadTable(newOrders, config.NewOrderTableSize(), config.numTxns);
      var orderLineTable := LoadTable(lines, config.OrderLineTableSize(), LINES * config.numTxns);
      this.config := config;
      orderIndex, newOrderIndex, orderLineIndex := orderTable, newOrderTable, orderLineTable;
      new;
      LoadHasKeys(FoundRows(), config.numWarehouses, []);
    }

    /** The thread of transaction tid puts its keys into the insert buffers. */
    method PrepareInsert(txn: Input, tid: nat)
      requires Separate() && tid < config.numTxns
      modifies orderIndex.insert, newOrderIndex.insert, orderLineIndex.insert
      ensures orderIndex.insert[..] == old(orderIndex.insert[..])[tid := OrderSlot(txn)]
      ensures newOrderIndex.insert[..] == old(newOrderIndex.insert[..])[tid := OrderSlot(txn)]
      ensures forall q: nat | q < orderLineIndex.insert.Length ::
                orderLineIndex.insert[q] == if q / 15 == tid then LineSlot(txn, q % 15)
                  else old(orderLineIndex.insert[q])
    {
      orderIndex.insert[tid] := OrderSlot(txn);
      newOrderIndex.insert[tid] := OrderSlot(txn);
      var base := tid * 15;
      for i := 0 to LINES
        invariant orderIndex.insert[..] == old(orderIndex.insert[..])[tid := OrderSlot(txn)]
        invariant newOrderIndex.insert[..] == old(newOrderIndex.insert[..])[tid := OrderSlot(txn)]
        invariant forall q: nat | q < orderLineIndex.insert.Length ::
                    orderLineIndex.insert[q] == if base <= q < base + i then LineSlot(txn, q % 15)
                      else old(orderLineIndex.insert[q])
      {
        orderLineIndex.insert[base + i] := LineSlot(txn, i);
      }
    }

    /** The threads of the whole batch. */
    method PrepareIndex(batch: seq<Input>)
      requires Separate() && |batch| <= config.numTxns
      modifies orderIndex.insert, newOrderIndex.insert, orderLineIndex.insert
      ensures OrderSlots(batch, orderIndex.insert[..|batch|]) && OrderSlots(batch, newOrderIndex.insert[..|batch|])
      ensures LineSlots(batch, orderLineIndex.insert[..LINES * |batch|])
    {
      for tid := 0 to |batch|
        invariant forall t: nat | t < tid :: orderIndex.insert[t] == OrderSlot(batch[t]) == newOrderIndex.insert[t]
        invariant forall q: nat | q < LINES * tid :: orderLineIndex.insert[q] == LineSlot(batch[q / 15], q % 15)
      {
        hide OrderSlot, LineSlot;
        PrepareInsert(batch[tid], tid);
      }
    }

    /** Gives rows to what the next epoch's batch adds.  There is room for it in every epoch of the
        run, in the free lists and in the tables. */
    method InsertBatch(ghost ins: seq<Input>, ghost n: nat, ghost e: nat, batch: seq<Input>)
      requires n + |batch| <= |ins| && batch == ins[n..n + |batch|] && InputsFit(ins, config.numWarehouses)
      requires Holds(ins, n, e) && e < config.epochs && |batch| <= config.numTxns
      modifies orderIndex, orderIndex.insert, orderIndex.validInsert
      modifies newOrderIndex, newOrderIndex.insert, newOrderIndex.validInsert
      modifies orderLineIndex, orderLineIndex.insert, orderLineIndex.validInsert
      ensures Holds(ins, n + |batch|, e + 1)
      ensures Extends(old(orderIndex.rows), orderIndex.rows) && Extends(old(newOrderIndex.rows), newOrderIndex.rows)
      ensures Extends(old(orderLineIndex.rows), orderLineIndex.rows)
      ensures Below(orderIndex.rows, config.OrderTableSize()) && Below(newOrderIndex.rows, config.NewOrderTableSize())
      ensures Below(orderLineIndex.rows, config.OrderLineTableSize())
    {
      PrepareIndex(batch);
      hide HasKeys, OrderSlots, LineSlots, InputsFit, HasRoom, Injective, Extends, Below;
      ghost var was := FoundRows();
      ghost var orders, newOrders := orderIndex.insert[..|batch|], newOrderIndex.insert[..|batch|];
      ghost var lines := orderLineIndex.insert[..LINES * |batch|];
      SameSlots(batch, orders, newOrders);
      IndexTables(|batch|, e);
      BatchAddsKeys(was, FoundRows(), config.numWarehouses, ins, n, batch, orders, lines);
    }

    /** Compacts and inserts the keys of all three tables. */
    method IndexTables(n: nat, ghost e: nat)
      requires Separate() && HasRoomAfter(e) && e < config.epochs && n <= config.numTxns
      modifies orderIndex, orderIndex.validInsert, newOrderIndex, newOrderIndex.validInsert
      modifies orderLineIndex, orderLineIndex.validInsert
      ensures HasRoomAfter(e + 1)
      ensures Injective(orderIndex.rows) && Injective(newOrderIndex.rows) && Injective(orderLineIndex.rows)
      ensures forall k :: k in orderIndex.rows <==> k in old(orderIndex.rows) || Some(k) in orderIndex.insert[..n]
      ensures forall k ::
                k in newOrderIndex.rows <==>
                k in old(newOrderIndex.rows) || Some(k) in newOrderIndex.insert[..n]
      ensures forall k ::
                k in orderLineIndex.rows <==>
                k in old(orderLineIndex.rows) || Some(k) in orderLineIndex.insert[..LINES * n]
      ensures Extends(old(orderIndex.rows), orderIndex.rows) && Extends(old(newOrderIndex.rows), newOrderIndex.rows)
      ensures Extends(old(orderLineIndex.rows), orderLineIndex.rows)
      ensures Below(orderIndex.rows, config.OrderTableSize()) && Below(newOrderIndex.rows, config.NewOrderTableSize())
      ensures Below(orderLineIndex.rows, config.OrderLineTableSize())
    {
      hide HasRoom, Injective, Extends, Below;
      RoomForEpoch(config, e);
      ghost var used := e * config.numTxns;
      IndexTable(orderIndex, n, 30000 * config.numWarehouses, config.OrderTableSize(), used, used + config.numTxns);
      IndexTable(newOrderIndex, n, 9000 * config.numWarehouses, config.NewOrderTableSize(), used,
        used + config.numTxns);
      IndexTable(orderLineIndex, LINES * n, 450000 * config.numWarehouses, config.OrderLineTableSize(), LINES * used,
        LINES * (used + config.numTxns));
    }

    /** The row of a key; the source asserts that the key is found. */
    method Find<K(==,!new)>(index: TableIndex<K>, k: K) returns (row: nat)
      requires k in index.rows
      ensures row == RowOf(index.rows, k)
    {
      row := index.rows[k];
    }

    /** The rows of an order's lines. */
    method FindLines(k: OrderId, numItems: nat) returns (rows: seq<nat>)
      requires HasLines(orderLineIndex.rows, k, numItems)
      ensures rows == LineRows(orderLineIndex.rows, k, numItems) && LinesAre(rows, orderLineIndex.rows, k, numItems)
    {
      rows := [];
      for i := 0 to numItems
        invariant rows == LineRows(orderLineIndex.rows, k, i)
      {
        var row := Find(orderLineIndex, LineOf(k, i));
        rows := rows + [row];
      }
      LinesFound(rows, orderLineIndex.rows, k, numItems);
    }

    method IndexNewOrder(ghost ins: seq<Input>, ghost n: nat, ghost i: nat, txn: Input, s: StaticRows)
      returns (t: Params)
      requires i < n <= |ins| && txn == ins[i] && txn.NewOrderInput? && |txn.supply| == |txn.items|
      requires HasKeys(FoundRows(), config.numWarehouses, ins, n)
      ensures forall initial: Initial :: t == ParamsOf(FoundRows(), s, ins, initial, i)
      ensures var k := OrderId(txn.w, txn.d, txn.oId);
              && t.NewOrder? && |t.items| == |txn.items|
              && t.warehouse == s.warehouse(txn.w) && t.district == s.district(txn.w, txn.d)
              && t.customer == s.customer(txn.w, txn.d, txn.c)
              && k in orderIndex.rows && t.order == orderIndex.rows[k]
              && k in newOrderIndex.rows && t.newOrder == newOrderIndex.rows[k]
              && forall l: nat | l < |txn.items| ::
                   && t.items[l].item == s.item(txn.items[l])
                   && t.items[l].stock == s.stock(txn.supply[l], txn.items[l])
                   && LineKey(txn.w, txn.d, txn.oId, l + 1) in orderLineIndex.rows
                   && t.items[l].orderLine == orderLineIndex.rows[LineKey(txn.w, txn.d, txn.oId, l + 1)]
    {
      OwnKeys(FoundRows(), config.numWarehouses, ins, i, n);
      var k := OrderId(txn.w, txn.d, txn.oId);
      var order := Find(orderIndex, k);
      var newOrder := Find(newOrderIndex, k);
      var items: seq<Item> := [];
      for l := 0 to |txn.items|
        invariant |items| == l && items == ItemRows(FoundRows(), s, txn)[..l]
      {
        var line := Find(orderLineIndex, LineOf(k, l));
        items := items + [Item(line, s.stock(txn.supply[l], txn.items[l]), s.item(txn.items[l]))];
      }
      t := NewOrder(s.warehouse(txn.w), s.district(txn.w, txn.d), s.customer(txn.w, txn.d, txn.c), newOrder, order,
        items);
    }

    /** The customer may be another warehouse's. */
    method IndexPayment(ghost ins: seq<Input>, ghost i: nat, txn: Input, s: StaticRows) returns (t: Params)
      requires i < |ins| && txn == ins[i] && txn.PaymentInput?
      ensures forall initial: Initial :: t == ParamsOf(FoundRows(), s, ins, initial, i)
      ensures t.Payment? && t.warehouse == s.warehouse(txn.w) && t.district == s.district(txn.w, txn.d)
      ensures t.customer == s.customer(txn.cw, txn.cd, txn.c)
    {
      t := Payment(s.warehouse(txn.w), s.district(txn.w, txn.d), s.customer(txn.cw, txn.cd, txn.c));
    }

    method IndexOrderStatus(ghost ins: seq<Input>, ghost initial: Initial, ghost n: nat, ghost i: nat, txn: Input,
                            s: StaticRows, oId: nat, numItems: nat) returns (t: Params)
      requires i < n <= |ins| && txn == ins[i] && txn.OrderStatusInput? && InitialOk(initial)
      requires InputsFit(ins, config.numWarehouses) && HasKeys(FoundRows(), config.numWarehouses, ins, n)
      requires oId == NewestOrder(ins, txn.w, txn.d, txn.c, i)
      requires numItems == |NewestItems(ins, initial, txn.w, txn.d, txn.c, i)|
      ensures t == ParamsOf(FoundRows(), s, ins, initial, i)
      ensures var o := NewestOrder(ins, txn.w, txn.d, txn.c, i);
              && t.OrderStatus? && t.customer == s.customer(txn.w, txn.d, txn.c)
              && OrderId(txn.w, txn.d, o) in orderIndex.rows && t.order == orderIndex.rows[OrderId(txn.w, txn.d, o)]
              && LinesAre(t.orderLines, orderLineIndex.rows, OrderId(txn.w, txn.d, o),
                          |NewestItems(ins, initial, txn.w, txn.d, txn.c, i)|)
    {
      NewestHasKeys(FoundRows(), config.numWarehouses, ins, initial, txn.w, txn.d, txn.c, i, n);
      var k := OrderId(txn.w, txn.d, oId);
      var order := Find(orderIndex, k);
      var lines := FindLines(k, numItems);
      t := OrderStatus(s.customer(txn.w, txn.d, txn.c), order, lines);
    }

    /** The entry has the rows of order k, and of as many of its lines. */
    ghost predicate EntryIs(entry: Delivered, customer: nat, k: OrderId, lines: nat)
      reads orderIndex, newOrderIndex, orderLineIndex
    {
      && k in newOrderIndex.rows && entry.newOrder == newOrderIndex.rows[k]
      && k in orderIndex.rows && entry.order == orderIndex.rows[k]
      && entry.customer == customer && LinesAre(entry.orderLines, orderLineIndex.rows, k, lines)
    }

    /** One of the ten orders that a Delivery delivers. */
    method FindEntry(k: OrderId, customer: nat, numItems: nat) returns (entry: Delivered)
      requires HasOrderKeys(FoundRows(), k, numItems) && k in newOrderIndex.rows
      ensures entry == Delivered(RowOf(newOrderIndex.rows, k), RowOf(orderIndex.rows, k), customer,
                                 LineRows(orderLineIndex.rows, k, numItems))
      ensures EntryIs(entry, customer, k, numItems)
    {
      var newOrder := Find(newOrderIndex, k);
      var order := Find(orderIndex, k);
      var lines := FindLines(k, numItems);
      entry := Delivered(newOrder, order, customer, lines);
    }

    method IndexDelivery(ghost ins: seq<Input>, ghost initial: Initial, ghost n: nat, ghost i: nat, txn: Input,
                         s: StaticRows, numItems: seq<nat>, customers: seq<nat>) returns (t: Params)
      requires i < n <= |ins| && txn == ins[i] && txn.DeliveryInput? && InitialOk(initial) && Generated(ins)
      requires InputsFit(ins, config.numWarehouses) && HasKeys(FoundRows(), config.numWarehouses, ins, n)
      requires |numItems| == |customers| == 10
      requires forall e: nat | e < 10 ::
                 && numItems[e] == |ItemsOf(ins, initial, txn.w, e + 1, txn.oId, i)|
                 && customers[e] == CustomerOf(ins, txn.w, e + 1, txn.oId, i)
      ensures t == ParamsOf(FoundRows(), s, ins, initial, i)
      ensures t.Delivery? && |t.entries| == 10
      ensures forall e: nat | e < 10 :: EntryIs(t.entries[e], s.customer(txn.w, e + 1, customers[e]),
                                                OrderId(txn.w, e + 1, txn.oId), numItems[e])
    {
      hide HasKeys, Generated, InputsFit, ItemsOf, CustomerOf, HasOrderKeys, InitialOk;
      var entries: seq<Delivered> := [];
      for e := 0 to 10
        invariant entries == EntriesRows(FoundRows(), s, ins, initial, txn.w, txn.oId, i, e)
        invariant forall f: nat | f < e :: EntryIs(entries[f], s.customer(txn.w, f + 1, customers[f]),
                                                   OrderId(txn.w, f + 1, txn.oId), numItems[f])
      {
        DeliversOrder(ins, config.numWarehouses, i, e + 1);
        OrderHasKeys(FoundRows(), config.numWarehouses, ins, initial, txn.w, e + 1, txn.oId, i, n);
        var entry := FindEntry(OrderId(txn.w, e + 1, txn.oId), s.customer(txn.w, e + 1, customers[e]), numItems[e]);
        entries := entries + [entry];
      }
      t := Delivery(entries);
    }
  }

  method LoadTable<K(==,!new)>(keys: seq<K>, tableSize: nat, batchSize: nat) returns (index: TableIndex<K>)
    requires AllDiffer(keys)
    ensures fresh(index) && fresh(index.freeRows) && fresh(index.insert) && fresh(index.validInsert)
    ensures HasRoom(index, |keys|, tableSize, 0) && Injective(index.rows) && index.insert.Length == batchSize
    ensures forall k :: k in index.rows <==> k in keys
  {
    index := new TableIndex(keys, tableSize, batchSize);
  }

  /** One table's part of an epoch, which uses up at most as many rows as are counted for it. */
  method IndexTable<K(==,!new)>(index: TableIndex<K>, n: nat, ghost loaded: nat, ghost tableSize: nat, ghost used: nat,
                                ghost limit: nat)
    requires n <= index.insert.Length
    requires HasRoom(index, loaded, tableSize, used) && used + n <= limit && loaded + limit <= tableSize
    modifies index, index.validInsert
    ensures HasRoom(index, loaded, tableSize, limit) && Below(index.rows, tableSize) && Injective(index.rows)
    ensures Extends(old(index.rows), index.rows) && index.insert[..] == old(index.insert[..])
    ensures forall k :: k in index.rows <==> k in old(index.rows) || Some(k) in index.insert[..n]
  {
    ValidFits(index.insert[..n]);
    index.IndexBatch(n);
  }

  lemma {:induction false} ValidFits<K>(keys: seq<Option<K>>)
    ensures |Valid(keys)| <= |keys|
  {
    if keys != [] { ValidFits(keys[..|keys| - 1]); }
  }

  lemma SameSlots(batch: seq<Input>, orders: seq<Option<OrderId>>, newOrders: seq<Option<OrderId>>)
    requires OrderSlots(batch, orders) && OrderSlots(batch, newOrders)
    ensures orders == newOrders
  {}
}
