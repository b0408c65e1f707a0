/** The keys of orders, new orders and order lines: which are loaded initially, which a batch adds,
    and how many rows all of them need. */
module TpccKeys {
  import opened BatchIndex
  import opened RowIndex
  import opened TpccGenerator

  datatype OrderId = OrderId(w: nat, d: nat, o: nat)

  datatype LineKey = LineKey(w: nat, d: nat, o: nat, number: nat)

  /** Line l of an order is numbered l + 1. */
  function LineOf(k: OrderId, l: nat): LineKey { LineKey(k.w, k.d, k.o, l + 1) }

  const LINES: nat := 15

  datatype TpccConfig = TpccConfig(numWarehouses: nat, numTxns: nat, epochs: nat) {
    function NewOrderTableSize(): nat { numWarehouses * 2 * 10 * 900 + numTxns * (epochs + 1) }
    function OrderTableSize(): nat { numWarehouses * 2 * 10 * 3000 + numTxns * (epochs + 1) }
    function OrderLineTableSize(): nat { numWarehouses * 10 * 15 * 3000 + numTxns * (epochs + 1) * 15 }
  }

  // ------------------------------------------------------------------ the initial load

  /** The keys at place i of the initial load. */
  function DistrictAt(i: nat): (nat, nat) { (i / 10 + 1, i % 10 + 1) }
  function OrderAt(i: nat): OrderId { var (w, d) := DistrictAt(i / 3000); OrderId(w, d, i % 3000 + 1) }
  function NewOrderAt(i: nat): OrderId { var (w, d) := DistrictAt(i / 900); OrderId(w, d, i % 900 + 2101) }
  function LineAt(i: nat): LineKey { var k := OrderAt(i / 15); LineKey(k.w, k.d, k.o, i % 15 + 1) }

  predicate InitialOrder(warehouses: nat, k: OrderId) {
    1 <= k.w <= warehouses && 1 <= k.d <= 10 && 1 <= k.o <= INITIAL_ORDERS
  }

  predicate InitialNewOrder(warehouses: nat, k: OrderId) {
    InitialOrder(warehouses, k) && k.o > INITIAL_DELIVERED
  }

  predicate InitialLine(warehouses: nat, k: LineKey) {
    InitialOrder(warehouses, OrderId(k.w, k.d, k.o)) && 1 <= k.number <= LINES
  }

  function DistrictPlace(w: nat, d: nat): int { (w - 1) * 10 + d - 1 }
  function OrderPlace(k: OrderId): int { DistrictPlace(k.w, k.d) * 3000 + k.o - 1 }
  function NewOrderPlace(k: OrderId): int { DistrictPlace(k.w, k.d) * 900 + k.o - 2101 }
  function LinePlace(k: LineKey): int { OrderPlace(OrderId(k.w, k.d, k.o)) * 15 + k.number - 1 }

  lemma {:induction false} OrderIsAt(warehouses: nat, k: OrderId, i: nat)
    ensures InitialOrder(warehouses, k) && OrderPlace(k) == i <==> k == OrderAt(i) && i < 30000 * warehouses
  {}

  lemma {:induction false} NewOrderIsAt(warehouses: nat, k: OrderId, i: nat)
    ensures InitialNewOrder(warehouses, k) && NewOrderPlace(k) == i <==> k == NewOrderAt(i) && i < 9000 * warehouses
  {}

  lemma {:induction false} LineIsAt(warehouses: nat, k: LineKey, i: nat)
    ensures InitialLine(warehouses, k) && LinePlace(k) == i <==> k == LineAt(i) && i < 450000 * warehouses
  {
    OrderIsAt(warehouses, OrderId(k.w, k.d, k.o), i / 15);
    hide OrderAt, InitialOrder, OrderPlace;
  }

  function FirstOrders(n: nat): (s: seq<OrderId>)
    ensures |s| == n && forall i: nat | i < n :: s[i] == OrderAt(i)
  {
    seq(n, i requires 0 <= i => OrderAt(i))
  }

  function FirstNewOrders(n: nat): (s: seq<OrderId>)
    ensures |s| == n && forall i: nat | i < n :: s[i] == NewOrderAt(i)
  {
    seq(n, i requires 0 <= i => NewOrderAt(i))
  }

  function FirstLines(n: nat): (s: seq<LineKey>)
    ensures |s| == n && forall i: nat | i < n :: s[i] == LineAt(i)
  {
    seq(n, i requires 0 <= i => LineAt(i))
  }

  /** How many new orders there are before order o of a district. */
  function NewOrdersBefore(w: nat, d: nat, o: nat): int {
    DistrictPlace(w, d) * 900 + if o <= 2101 then 0 else o - 2101
  }

  /** The innermost loop: the lines of one order. */
  method OrderLineKeys(w: nat, d: nat, o: nat, before: seq<LineKey>) returns (lines: seq<LineKey>)
    requires 1 <= w && 1 <= d <= 10 && 1 <= o <= INITIAL_ORDERS
    requires before == FirstLines(OrderPlace(OrderId(w, d, o)) * 15)
    ensures lines == FirstLines(OrderPlace(OrderId(w, d, o + 1)) * 15)
  {
    hide LineAt;
    lines := before;
    for number := 1 to LINES + 1
      invariant lines == FirstLines(OrderPlace(OrderId(w, d, o)) * 15 + number - 1)
    {
      LineIsAt(w, LineKey(w, d, o, number), |lines|);
      lines := lines + [LineKey(w, d, o, number)];
    }
  }

  /** The loop over the orders of one district. */
  method DistrictKeys(w: nat, d: nat, orders0: seq<OrderId>, newOrders0: seq<OrderId>, lines0: seq<LineKey>)
    returns (orders: seq<OrderId>, newOrders: seq<OrderId>, lines: seq<LineKey>)
    requires 1 <= w && 1 <= d <= 10 && ListedBefore(orders0, newOrders0, lines0, w, d, 1)
    ensures ListedBefore(orders, newOrders, lines, w, d + 1, 1)
  {
    orders, newOrders, lines := orders0, newOrders0, lines0;
    for o := 1 to INITIAL_ORDERS + 1
      invariant ListedBefore(orders, newOrders, lines, w, d, o)
    {
      hide FirstOrders, FirstNewOrders, FirstLines, OrderPlace, NewOrdersBefore;
      OneMoreListed(orders, newOrders, w, d, o);
      orders := orders + [OrderId(w, d, o)];
      if o > INITIAL_DELIVERED {
        newOrders := newOrders + [OrderId(w, d, o)];
      }
      lines := OrderLineKeys(w, d, o, lines);
    }
    DistrictListed(orders, newOrders, lines, w, d);
  }

  /** The loops that list the keys of the initial orders, new orders and order lines. */
  method InitialKeys(warehouses: nat) returns (orders: seq<OrderId>, newOrders: seq<OrderId>, lines: seq<LineKey>)
    ensures orders == FirstOrders(30000 * warehouses) && newOrders == FirstNewOrders(9000 * warehouses)
    ensures lines == FirstLines(450000 * warehouses)
  {
    orders, newOrders, lines := [], [], [];
    for w := 1 to warehouses + 1
      invariant ListedBefore(orders, newOrders, lines, w, 1, 1)
    {
      for d := 1 to 11
        invariant ListedBefore(orders, newOrders, lines, w, d, 1)
      {
        hide ListedBefore;
        orders, newOrders, lines := DistrictKeys(w, d, orders, newOrders, lines);
      }
      hide ListedBefore;
      WarehouseListed(orders, newOrders, lines, w);
    }
  }

  lemma DistrictListed(orders: seq<OrderId>, newOrders: seq<OrderId>, lines: seq<LineKey>, w: nat, d: nat)
    requires 1 <= w && 1 <= d && ListedBefore(orders, newOrders, lines, w, d, INITIAL_ORDERS + 1)
    ensures ListedBefore(orders, newOrders, lines, w, d + 1, 1)
  {
    hide FirstOrders, FirstNewOrders, FirstLines;
  }

  lemma WarehouseListed(orders: seq<OrderId>, newOrders: seq<OrderId>, lines: seq<LineKey>, w: nat)
    requires 1 <= w && ListedBefore(orders, newOrders, lines, w, 11, 1)
    ensures ListedBefore(orders, newOrders, lines, w + 1, 1, 1)
  {
    hide FirstOrders, FirstNewOrders, FirstLines;
  }

  /** All keys before order o of district (w, d) have been listed. */
  ghost predicate ListedBefore(orders: seq<OrderId>, newOrders: seq<OrderId>, lines: seq<LineKey>, w: nat, d: nat,
                               o: nat)
    requires 1 <= w && 1 <= d && 1 <= o
  {
    && orders == FirstOrders(OrderPlace(OrderId(w, d, o))) && newOrders == FirstNewOrders(NewOrdersBefore(w, d, o))
    && lines == FirstLines(OrderPlace(OrderId(w, d, o)) * 15)
  }

  lemma {:induction false} OneMoreListed(orders: seq<OrderId>, newOrders: seq<OrderId>, w: nat, d: nat, o: nat)
    requires 1 <= w && 1 <= d <= 10 && 1 <= o <= INITIAL_ORDERS
    requires orders == FirstOrders(OrderPlace(OrderId(w, d, o)))
    requires newOrders == FirstNewOrders(NewOrdersBefore(w, d, o))
    ensures orders + [OrderId(w, d, o)] == FirstOrders(OrderPlace(OrderId(w, d, o + 1)))
    ensures newOrders + (if o > INITIAL_DELIVERED then [OrderId(w, d, o)] else []) ==
            FirstNewOrders(NewOrdersBefore(w, d, o + 1))
  {
    hide OrderAt, NewOrderAt, FirstNewOrders, FirstOrders;
    NextOrder(orders, w, d, o);
    if o > INITIAL_DELIVERED { NextNewOrder(newOrders, w, d, o); }
  }

  lemma {:induction false} NextOrder(orders: seq<OrderId>, w: nat, d: nat, o: nat)
    requires 1 <= w && 1 <= d <= 10 && 1 <= o <= INITIAL_ORDERS
    requires orders == FirstOrders(OrderPlace(OrderId(w, d, o)))
    ensures orders + [OrderId(w, d, o)] == FirstOrders(OrderPlace(OrderId(w, d, o + 1)))
  {
    hide OrderAt;
    OrderIsAt(w, OrderId(w, d, o), |orders|);
    hide FirstOrders;
  }

  lemma {:induction false} NextNewOrder(newOrders: seq<OrderId>, w: nat, d: nat, o: nat)
    requires 1 <= w && 1 <= d <= 10 && INITIAL_DELIVERED < o <= INITIAL_ORDERS
    requires newOrders == FirstNewOrders(NewOrdersBefore(w, d, o))
    ensures newOrders + [OrderId(w, d, o)] == FirstNewOrders(NewOrdersBefore(w, d, o + 1))
  {
    hide NewOrderAt;
    NewOrderIsAt(w, OrderId(w, d, o), |newOrders|);
    hide FirstNewOrders;
  }

  // ------------------------------------------------------------------ what is in the index

  /** The rows of the orders, new orders and order lines. */
  datatype Found = Found(orders: map<OrderId, nat>, newOrders: map<OrderId, nat>, lines: map<LineKey, nat>)

  predicate Places(x: Input, k: OrderId) {
    x.NewOrderInput? && k == OrderId(x.w, x.d, x.oId)
  }

  predicate PlacesLine(x: Input, k: LineKey) {
    Places(x, OrderId(k.w, k.d, k.o)) && 1 <= k.number <= |x.items|
  }

  ghost predicate PlacedKey(ins: seq<Input>, lo: nat, hi: nat, k: OrderId)
    requires hi <= |ins|
  {
    exists j: nat :: lo <= j < hi && Places(ins[j], k)
  }

  ghost predicate PlacedLine(ins: seq<Input>, lo: nat, hi: nat, k: LineKey)
    requires hi <= |ins|
  {
    exists j: nat :: lo <= j < hi && PlacesLine(ins[j], k)
  }

  /** The index has exactly the keys of the initial load and of the first n transactions, under
      different rows. */
  ghost predicate HasKeys(found: Found, warehouses: nat, ins: seq<Input>, n: nat)
    requires n <= |ins|
  {
    && Injective(found.orders) && Injective(found.newOrders) && Injective(found.lines)
    && (forall k :: k in found.orders <==> InitialOrder(warehouses, k) || PlacedKey(ins, 0, n, k))
    && (forall k :: k in found.newOrders <==> InitialNewOrder(warehouses, k) || PlacedKey(ins, 0, n, k))
    && (forall k :: k in found.lines <==> InitialLine(warehouses, k) || PlacedLine(ins, 0, n, k))
  }

  /** The first e epochs have used at most `used` of the free rows, which there are enough of. */
  ghost predicate HasRoom<K(!new)>(t: TableIndex<K>, loaded: nat, tableSize: nat, used: nat)
    reads t, t.freeRows
  {
    t.Ok() && t.numLoaded == loaded && t.freeRows.Length == tableSize && t.freeStart <= used
  }

  /** Epoch e < epochs needs no more rows than there are, in the table and in the free list. */
  lemma {:induction false} RoomForEpoch(config: TpccConfig, e: nat)
    requires e < config.epochs
    ensures e * config.numTxns + config.numTxns == (e + 1) * config.numTxns <= config.numTxns * (config.epochs + 1)
    ensures 30000 * config.numWarehouses + (e + 1) * config.numTxns <= config.OrderTableSize()
    ensures 9000 * config.numWarehouses + (e + 1) * config.numTxns <= config.NewOrderTableSize()
    ensures 450000 * config.numWarehouses + LINES * ((e + 1) * config.numTxns) <= config.OrderLineTableSize()
  {
    var n := config.numTxns;
    assert config.numTxns * (config.epochs + 1) == (e + 1) * n + (config.epochs - e) * n;
    assert (config.epochs - e) * n >= 0;
  }

  /** What a transaction's thread puts into the insert buffers. */
  function OrderSlot(x: Input): Option<OrderId> {
    if x.NewOrderInput? then Some(OrderId(x.w, x.d, x.oId)) else None
  }

  function LineSlot(x: Input, l: nat): Option<LineKey> {
    if x.NewOrderInput? && l < |x.items| then Some(LineOf(OrderId(x.w, x.d, x.oId), l)) else None
  }

  ghost predicate OrderSlots(batch: seq<Input>, insert: seq<Option<OrderId>>) {
    |insert| == |batch| && forall tid: nat | tid < |batch| :: insert[tid] == OrderSlot(batch[tid])
  }

  ghost predicate LineSlots(batch: seq<Input>, insert: seq<Option<LineKey>>) {
    |insert| == LINES * |batch| && forall q: nat | q < LINES * |batch| :: insert[q] == LineSlot(batch[q / 15], q % 15)
  }

  lemma {:induction false} OrderSlotsHaveKeys(ins: seq<Input>, n: nat, batch: seq<Input>, insert: seq<Option<OrderId>>,
                                              k: OrderId)
    requires n + |batch| <= |ins| && batch == ins[n..n + |batch|] && OrderSlots(batch, insert)
    ensures Some(k) in insert <==> PlacedKey(ins, n, n + |batch|, k)
  {
    if Some(k) in insert {
      var tid: nat :| tid < |insert| && insert[tid] == Some(k);
      assert Places(ins[n + tid], k);
    }
    if PlacedKey(ins, n, n + |batch|, k) {
      var j: nat :| n <= j < n + |batch| && Places(ins[j], k);
      assert insert[j - n] == OrderSlot(batch[j - n]);
    }
  }

  lemma {:induction false} LineSlotsHaveKeys(ins: seq<Input>, n: nat, batch: seq<Input>, insert: seq<Option<LineKey>>,
                                             warehouses: nat, k: LineKey)
    requires n + |batch| <= |ins| && batch == ins[n..n + |batch|] && LineSlots(batch, insert)
             && InputsFit(ins, warehouses)
    ensures Some(k) in insert <==> PlacedLine(ins, n, n + |batch|, k)
  {
    if Some(k) in insert {
      var q: nat :| q < |insert| && insert[q] == Some(k);
      assert PlacesLine(ins[n + q / 15], k);
    }
    if PlacedLine(ins, n, n + |batch|, k) {
      var j: nat :| n <= j < n + |batch| && PlacesLine(ins[j], k);
      var q := SlotOf(j - n, k.number - 1);
      assert insert[q] == LineSlot(batch[j - n], k.number - 1);
    }
  }

  lemma {:induction false} SlotOf(tid: nat, l: nat) returns (q: nat)
    requires l < LINES
    ensures q / 15 == tid && q % 15 == l && forall n: nat | tid < n :: q < LINES * n
  {
    q := 15 * tid + l;
  }

  lemma PlacedKeySplits(ins: seq<Input>, n: nat, m: nat, k: OrderId)
    requires n <= m <= |ins|
    ensures PlacedKey(ins, 0, m, k) <==> PlacedKey(ins, 0, n, k) || PlacedKey(ins, n, m, k)
  {}

  lemma PlacedLineSplits(ins: seq<Input>, n: nat, m: nat, k: LineKey)
    requires n <= m <= |ins|
    ensures PlacedLine(ins, 0, m, k) <==> PlacedLine(ins, 0, n, k) || PlacedLine(ins, n, m, k)
  {}

  /** What the three index calls of an epoch add are the keys of the epoch's NewOrders. */
  lemma {:induction false} BatchAddsKeys(was: Found, now: Found, warehouses: nat, ins: seq<Input>, n: nat,
                                         batch: seq<Input>, orders: seq<Option<OrderId>>, lines: seq<Option<LineKey>>)
    requires n + |batch| <= |ins| && batch == ins[n..n + |batch|] && InputsFit(ins, warehouses)
    requires HasKeys(was, warehouses, ins, n) && OrderSlots(batch, orders) && LineSlots(batch, lines)
    requires Injective(now.orders) && Injective(now.newOrders) && Injective(now.lines)
    requires forall k :: k in now.orders <==> k in was.orders || Some(k) in orders
    requires forall k :: k in now.newOrders <==> k in was.newOrders || Some(k) in orders
    requires forall k :: k in now.lines <==> k in was.lines || Some(k) in lines
    ensures HasKeys(now, warehouses, ins, n + |batch|)
  {
    hide PlacedKey, PlacedLine, InitialOrder, InitialNewOrder, InitialLine, OrderSlots, LineSlots, InputsFit;
    hide Injective;
    forall k: OrderId
      ensures Some(k) in orders <==> PlacedKey(ins, n, n + |batch|, k)
      ensures PlacedKey(ins, 0, n + |batch|, k) <==> PlacedKey(ins, 0, n, k) || PlacedKey(ins, n, n + |batch|, k)
    {
      OrderSlotsHaveKeys(ins, n, batch, orders, k);
      PlacedKeySplits(ins, n, n + |batch|, k);
    }
    forall k: LineKey
      ensures Some(k) in lines <==> PlacedLine(ins, n, n + |batch|, k)
      ensures PlacedLine(ins, 0, n + |batch|, k) <==> PlacedLine(ins, 0, n, k) || PlacedLine(ins, n, n + |batch|, k)
    {
      LineSlotsHaveKeys(ins, n, batch, lines, warehouses, k);
      PlacedLineSplits(ins, n, n + |batch|, k);
    }
  }

  lemma {:induction false} LoadHasKeys(found: Found, warehouses: nat, ins: seq<Input>)
    requires Injective(found.orders) && Injective(found.newOrders) && Injective(found.lines)
    requires forall k :: k in found.orders <==> k in FirstOrders(30000 * warehouses)
    requires forall k :: k in found.newOrders <==> k in FirstNewOrders(9000 * warehouses)
    requires forall k :: k in found.lines <==> k in FirstLines(450000 * warehouses)
    ensures HasKeys(found, warehouses, ins, 0)
  {
    hide Injective, OrderAt, NewOrderAt, LineAt, OrderPlace, NewOrderPlace, LinePlace, InitialOrder;
    hide InitialNewOrder, InitialLine, FirstOrders, FirstNewOrders, FirstLines;
    forall k ensures k in FirstOrders(30000 * warehouses) <==> InitialOrder(warehouses, k) {
      KeyIsLoaded(warehouses, k);
    }
    forall k ensures k in FirstNewOrders(9000 * warehouses) <==> InitialNewOrder(warehouses, k) {
      KeyIsLoaded(warehouses, k);
    }
    forall k ensures k in FirstLines(450000 * warehouses) <==> InitialLine(warehouses, k) {
      LineIsLoaded(warehouses, k);
    }
  }

  /** What is loaded does not depend on what will come. */
  lemma KeysServeEveryRun(found: Found, warehouses: nat, ins: seq<Input>)
    requires HasKeys(found, warehouses, [], 0)
    ensures HasKeys(found, warehouses, ins, 0)
  {}

  lemma {:induction false} KeyIsLoaded(warehouses: nat, k: OrderId)
    ensures k in FirstOrders(30000 * warehouses) <==> InitialOrder(warehouses, k)
    ensures k in FirstNewOrders(9000 * warehouses) <==> InitialNewOrder(warehouses, k)
  {
    if InitialOrder(warehouses, k) {
      assert OrderPlace(k) >= 0;
      OrderIsAt(warehouses, k, OrderPlace(k));
      assert FirstOrders(30000 * warehouses)[OrderPlace(k)] == k;
    }
    if InitialNewOrder(warehouses, k) {
      assert NewOrderPlace(k) >= 0;
      NewOrderIsAt(warehouses, k, NewOrderPlace(k));
      assert FirstNewOrders(9000 * warehouses)[NewOrderPlace(k)] == k;
    }
    hide OrderAt, NewOrderAt, InitialOrder, InitialNewOrder;
    if k in FirstOrders(30000 * warehouses) {
      var i: nat :| i < 30000 * warehouses && FirstOrders(30000 * warehouses)[i] == k;
      OrderIsAt(warehouses, k, i);
    }
    if k in FirstNewOrders(9000 * warehouses) {
      var i: nat :| i < 9000 * warehouses && FirstNewOrders(9000 * warehouses)[i] == k;
      NewOrderIsAt(warehouses, k, i);
    }
  }

  lemma {:induction false} LineIsLoaded(warehouses: nat, k: LineKey)
    ensures k in FirstLines(450000 * warehouses) <==> InitialLine(warehouses, k)
  {
    if InitialLine(warehouses, k) {
      assert LinePlace(k) >= 0;
      LineIsAt(warehouses, k, LinePlace(k));
      assert FirstLines(450000 * warehouses)[LinePlace(k)] == k;
    }
    hide LineAt, InitialLine;
    if k in FirstLines(450000 * warehouses) {
      var i: nat :| i < 450000 * warehouses && FirstLines(450000 * warehouses)[i] == k;
      LineIsAt(warehouses, k, i);
    }
  }

  /** No key is loaded twice. */
  lemma {:induction false} LoadedOnce(warehouses: nat)
    ensures AllDiffer(FirstOrders(30000 * warehouses)) && AllDiffer(FirstNewOrders(9000 * warehouses))
    ensures AllDiffer(FirstLines(450000 * warehouses))
  {
    hide OrderAt, NewOrderAt, LineAt;
    forall i: nat, j: nat | i < j < 30000 * warehouses ensures OrderAt(i) != OrderAt(j) {
      OrderIsAt(warehouses, OrderAt(i), i);
      OrderIsAt(warehouses, OrderAt(j), j);
    }
    forall i: nat, j: nat | i < j < 9000 * warehouses ensures NewOrderAt(i) != NewOrderAt(j) {
      NewOrderIsAt(warehouses, NewOrderAt(i), i);
      NewOrderIsAt(warehouses, NewOrderAt(j), j);
    }
    forall i: nat, j: nat | i < j < 450000 * warehouses ensures LineAt(i) != LineAt(j) {
      LineIsAt(warehouses, LineAt(i), i);
      LineIsAt(warehouses, LineAt(j), j);
    }
  }
}
