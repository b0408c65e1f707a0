/** What the executor's lanes leave, word by word, is what the transactions do: over a batch run
    serially, over an epoch in every interleaving, and for the transactions that only read. */
module SerialWords {
  import opened DeliveryBalance
  import opened Execution
  import opened Machine
  import opened SerialEquivalence
  import opened SerialRows
  import opened TpccEpoch
  import opened TpccLanes
  import opened TpccProgram
  import opened TpccSubmitter
  import opened TpccTables
  import opened TpccWords
  import Money
  import Stock

  /** The lanes as they are, on rows as long as their tables say. */
  ghost predicate AsExecuted(b: SerialBatch) { b.adder == C_BALANCE && Money.Sized(b.db, b.width) }

  /** The words before transaction u. */
  ghost function WordsOf(b: SerialBatch, u: nat): Words
    requires u <= |b.txns|
  {
    (k: Key, i: nat) => WordIn(RowOf(b, u, k), i)
  }

  /** Word i of row k before access p of transaction u. */
  ghost function WordAt(b: SerialBatch, u: nat, p: nat, k: Key, i: nat): nat
    requires u < |b.txns| && p <= |Program(b.txns[u])|
  {
    WordIn(RowAt(b, u, p, k), i)
  }

  // ------------------------------------------------------------------ rows and registers

  lemma {:induction false} BeginsSized(b: SerialBatch, u: nat, k: Key)
    requires u <= |b.txns| && AsExecuted(b)
    ensures |RowOf(b, u, k)| == b.width(k.table)
  {
    hide TpccJob, LaneIn, Money.RowBefore;
    Money.OneUnitEach(b.txns, LaneIn(b), b.width);
    assert JobOf(b).width == b.width by { JobWidth(b); }
    Money.RowsSized(JobOf(b), b.db, u, k);
  }

  lemma JobWidth(b: SerialBatch)
    ensures JobOf(b).width == b.width
  {
    hide LaneIn, All, ExecutedAccesses;
  }

  lemma {:induction false} RowSized(b: SerialBatch, u: nat, p: nat, k: Key)
    requires u < |b.txns| && p <= |Program(b.txns[u])| && AsExecuted(b)
    ensures |RowAt(b, u, p, k)| == b.width(k.table)
    decreases p
  {
    hide Program, RowAt, RowOf, SeenAt, AsExecuted, WrittenRow;
    if p == 0 {
      TxnBegins(b, u, k);
      BeginsSized(b, u, k);
    } else {
      RowSized(b, u, p - 1, k);
      if Program(b.txns[u])[p - 1].write {
        WriteStep(b, u, p - 1, k);
        WrittenRowIs(b, u, p - 1);
        JobWidth(b);
      } else {
        ReadStep(b, u, p - 1, k);
      }
    }
  }

  /** After a read lane i's register has word i of the row, or zero beyond its end. */
  lemma {:induction false} RegisterIs(b: SerialBatch, u: nat, p: nat, i: nat)
    requires u < |b.txns| && p < |Program(b.txns[u])| && !Program(b.txns[u])[p].write && AsExecuted(b)
    ensures var k := KeyOf(Program(b.txns[u])[p]);
            Register(SeenAt(b, u, p + 1), i) == if i < b.width(k.table) then WordAt(b, u, p, k, i) else 0
  {
    hide Program, RowAt, SeenAt, AsExecuted;
    ReadStep(b, u, p, KeyOf(Program(b.txns[u])[p]));
    RowSized(b, u, p, KeyOf(Program(b.txns[u])[p]));
  }

  /** A word of a row that is read and then written. */
  lemma {:induction false} UpdatedWord(b: SerialBatch, u: nat, p: nat, k: Key, i: nat)
    requires u < |b.txns| && Updates(b.txns[u], p) && i < b.width(k.table)
    ensures var y, seen := Program(b.txns[u])[p + 1], SeenAt(b, u, p + 2);
            && Register(seen, i) == WordAt(b, u, p, KeyOf(y), i)
            && WordAt(b, u, p + 2, k, i) ==
               if k == KeyOf(y) then LaneWrite(b.txns[u], b.values(u), y, seen, i, b.adder) else WordAt(b, u, p, k, i)
  {
    hide Program, RowAt, SeenAt, LaneWrite, Register, WordIn;
    Update(b, u, p, i, k);
  }

  // ------------------------------------------------------------------ NewOrder

  lemma {:induction false} HeadKeepsRow(b: SerialBatch, u: nat, p: nat, q: nat, k: Key)
    requires u < |b.txns| && b.txns[u].NewOrder? && p <= q <= 6
    requires k == Key(DISTRICT, b.txns[u].district) ==> q <= 2 || 3 <= p
    requires k == Key(ORDER, b.txns[u].order) ==> q <= 4 || 5 <= p
    requires k == Key(NEW_ORDER, b.txns[u].newOrder) ==> q <= 5
    ensures |Program(b.txns[u])| == 6 + 4 * |b.txns[u].items| && RowAt(b, u, q, k) == RowAt(b, u, p, k)
  {
    hide Program, RowAt;
    NewOrderHead(b.txns[u]);
    forall i: nat | p <= i < q ensures Program(b.txns[u])[i].write ==> KeyOf(Program(b.txns[u])[i]) != k {
      assert i in {0, 1, 2, 3, 4, 5};
    }
    RowKept(b, u, p, q, k);
  }

  lemma NewOrderLanes(t: Params, v: Values, x: Touch, seen: seq<Row>, i: nat, adder: nat)
    requires t.NewOrder? && x.table in {DISTRICT, ORDER, NEW_ORDER}
    ensures LaneWrite(t, v, x, seen, i, adder) ==
            if x.table == DISTRICT && i == D_NEXT_O_ID then v.nextOrderId else Register(seen, i)
  {
    hide NewQuantity, Register;
  }

  lemma {:induction false} DistrictAfterHead(b: SerialBatch, u: nat, i: nat)
    requires u < |b.txns| && b.txns[u].NewOrder? && i < b.width(DISTRICT)
    ensures |Program(b.txns[u])| == 6 + 4 * |b.txns[u].items|
    ensures var k := Key(DISTRICT, b.txns[u].district);
            WordAt(b, u, 6, k, i) == if i == D_NEXT_O_ID then b.values(u).nextOrderId else WordAt(b, u, 0, k, i)
  {
    hide Program, RowAt, SeenAt, LaneWrite, Register, WordIn;
    var t := b.txns[u];
    var k := Key(DISTRICT, t.district);
    NewOrderHead(t);
    HeadKeepsRow(b, u, 0, 1, k);
    UpdatedWord(b, u, 1, k, i);
    NewOrderLanes(t, b.values(u), Program(t)[2], SeenAt(b, u, 3), i, b.adder);
    HeadKeepsRow(b, u, 3, 6, k);
  }

  lemma {:induction false} OrderAfterHead(b: SerialBatch, u: nat, p: nat, i: nat)
    requires u < |b.txns| && b.txns[u].NewOrder? && AsExecuted(b) && p in {4, 5}
    requires i < b.width(if p == 4 then ORDER else NEW_ORDER)
    ensures |Program(b.txns[u])| == 6 + 4 * |b.txns[u].items|
    ensures var k := if p == 4 then Key(ORDER, b.txns[u].order) else Key(NEW_ORDER, b.txns[u].newOrder);
            var c := Key(CUSTOMER, b.txns[u].customer);
            WordAt(b, u, 6, k, i) == if i < b.width(CUSTOMER) then WordAt(b, u, 0, c, i) else 0
  {
    hide Program, RowAt, SeenAt, LaneWrite, Register, WordIn, AsExecuted;
    var t := b.txns[u];
    var k := if p == 4 then Key(ORDER, t.order) else Key(NEW_ORDER, t.newOrder);
    NewOrderHead(t);
    HeadKeepsRow(b, u, 0, 3, Key(CUSTOMER, t.customer));
    RegisterIs(b, u, 3, i);
    WriteStep(b, u, 4, k);
    WrittenIs(b, u, p, i);
    NewOrderLanes(t, b.values(u), Program(t)[p], SeenAt(b, u, p), i, b.adder);
    HeadKeepsRow(b, u, p + 1, 6, if p == 4 then k else Key(ITEM, 0));
  }

  /** The six accesses before the items. */
  lemma {:induction false} HeadHolds(b: SerialBatch, u: nat, k: Key, i: nat)
    requires u < |b.txns| && b.txns[u].NewOrder? && AsExecuted(b) && i < b.width(k.table)
    ensures |Program(b.txns[u])| == 6 + 4 * |b.txns[u].items|
    ensures var t := b.txns[u];
            WordAt(b, u, 6, k, i) ==
            if k == Key(DISTRICT, t.district) && i == D_NEXT_O_ID then b.values(u).nextOrderId
            else if k == Key(ORDER, t.order) || k == Key(NEW_ORDER, t.newOrder) then
              (if i < b.width(CUSTOMER) then WordAt(b, u, 0, Key(CUSTOMER, t.customer), i) else 0)
            else WordAt(b, u, 0, k, i)
  {
    hide Program, RowAt, AsExecuted;
    var t := b.txns[u];
    if k == Key(DISTRICT, t.district) {
      DistrictAfterHead(b, u, i);
    } else if k == Key(ORDER, t.order) {
      OrderAfterHead(b, u, 4, i);
    } else if k == Key(NEW_ORDER, t.newOrder) {
      OrderAfterHead(b, u, 5, i);
    } else {
      HeadKeepsRow(b, u, 0, 6, k);
    }
  }

  lemma StockLane(t: Params, v: Values, x: Touch, l: nat, seen: seq<Row>, i: nat, adder: nat)
    requires t.NewOrder? && x.table == STOCK && x.word == 8 + 4 * l
    ensures LaneWrite(t, v, x, seen, i, adder) ==
            if i == S_QUANTITY then Stock.EpicDeduct(Register(seen, i) % WORD, v.quantities(l) % WORD)
            else Register(seen, i)
  {
    hide Register, Stock.EpicDeduct;
  }

  lemma LineLane(t: Params, v: Values, x: Touch, l: nat, seen: seq<Row>, i: nat, adder: nat)
    requires t.NewOrder? && l < |t.items| && x.table == ORDER_LINE && x.word == 9 + 4 * l
    ensures LaneWrite(t, v, x, seen, i, adder) ==
            if i == OL_I_ID then t.items[l].item
            else if i == OL_AMOUNT || i == OL_QUANTITY then v.quantities(l)
            else if i == OL_SUPPLY_W_ID then t.warehouse
            else Register(seen, i)
  {
    hide Register, NewQuantity;
  }

  lemma QuantityAppend(q: nat, orders: seq<uint32>, order: uint32)
    ensures Quantity(q, orders + [order]) == Stock.EpicDeduct(Quantity(q, orders) % WORD, order)
  {
    hide Stock.EpicDeduct, Stock.EpicSell;
    Stock.EpicSellAppend(q % WORD, orders, order);
    NothingSold(q % WORD);
  }

  lemma NothingSold(q: uint32)
    ensures Stock.EpicSell(q, []) == q
  {}

  /** Item n: first its stock row, then its order line. */
  lemma {:induction false} ItemStock(b: SerialBatch, u: nat, n: nat, k: Key, i: nat)
    requires u < |b.txns| && b.txns[u].NewOrder? && n < |b.txns[u].items| && i < b.width(k.table)
    ensures |Program(b.txns[u])| == 6 + 4 * |b.txns[u].items|
    ensures var p := 6 + 4 * n;
            && WordAt(b, u, p + 1, k, i) == WordAt(b, u, p, k, i)
            && WordAt(b, u, p + 3, k, i) ==
               if k == Key(STOCK, b.txns[u].items[n].stock) && i == S_QUANTITY
               then Stock.EpicDeduct(WordAt(b, u, p, k, i) % WORD, b.values(u).quantities(n) % WORD)
               else WordAt(b, u, p, k, i)
  {
    hide Program, RowAt, SeenAt, LaneWrite, Register, WordIn, Stock.EpicDeduct;
    var t, p := b.txns[u], 6 + 4 * n;
    NewOrderItem(t, n);
    ReadStep(b, u, p, k);
    UpdatedWord(b, u, p + 1, k, i);
    StockLane(t, b.values(u), Program(t)[p + 2], n, SeenAt(b, u, p + 3), i, b.adder);
  }

  lemma {:induction false} ItemLine(b: SerialBatch, u: nat, n: nat, k: Key, i: nat)
    requires u < |b.txns| && b.txns[u].NewOrder? && n < |b.txns[u].items| && i < b.width(k.table) && AsExecuted(b)
    ensures |Program(b.txns[u])| == 6 + 4 * |b.txns[u].items|
    ensures var t, v, p := b.txns[u], b.values(u), 6 + 4 * n;
            var s := Key(STOCK, t.items[n].stock);
            WordAt(b, u, p + 4, k, i) ==
            if k != Key(ORDER_LINE, t.items[n].orderLine) then WordAt(b, u, p + 3, k, i)
            else if i == OL_I_ID then t.items[n].item
            else if i == OL_AMOUNT || i == OL_QUANTITY then v.quantities(n)
            else if i == OL_SUPPLY_W_ID then t.warehouse
            else if i < b.width(STOCK) then WordAt(b, u, p + 1, s, i) else 0
  {
    hide Program, RowAt, SeenAt, LaneWrite, Register, WordIn, AsExecuted;
    var t, p := b.txns[u], 6 + 4 * n;
    NewOrderItem(t, n);
    WriteStep(b, u, p + 2, k);
    WriteStep(b, u, p + 3, k);
    if k == Key(ORDER_LINE, t.items[n].orderLine) {
      RegisterIs(b, u, p + 1, i);
      WrittenIs(b, u, p + 3, i);
      LineLane(t, b.values(u), Program(t)[p + 3], n, SeenAt(b, u, p + 3), i, b.adder);
    }
  }

  lemma NoItemYet(t: Params, v: Values, width: nat -> nat, before: Words, k: Key, i: nat)
    requires t.NewOrder?
    ensures ItemsWord(t, v, width, before, 0, k, i) == before(k, i)
  {}

  lemma OtherStockWord(t: Params, v: Values, width: nat -> nat, before: Words, n: nat, k: Key, i: nat)
    requires t.NewOrder? && n <= |t.items| && k.table == STOCK && i != S_QUANTITY
    ensures ItemsWord(t, v, width, before, n, k, i) == before(k, i)
  {}

  lemma {:induction false} OneMoreItem(t: Params, v: Values, width: nat -> nat, before: Words, n: nat, k: Key, i: nat)
    requires t.NewOrder? && n < |t.items| && k.table in {STOCK, ORDER_LINE}
    ensures var w := ItemsWord(t, v, width, before, n, k, i);
            ItemsWord(t, v, width, before, n + 1, k, i) ==
            if k == Key(STOCK, t.items[n].stock) && i == S_QUANTITY then
              Stock.EpicDeduct(w % WORD, v.quantities(n) % WORD)
            else if k == Key(ORDER_LINE, t.items[n].orderLine) then LineWord(t, v, width, before, n, i)
            else w
  {
    hide Quantity, LineWord, Stock.EpicDeduct;
    var orders := Ordered(t.items, v.quantities, k.row, n);
    QuantityAppend(before(k, i), orders, v.quantities(n) % WORD);
    assert t.items[n].stock != k.row ==> Ordered(t.items, v.quantities, k.row, n + 1) == orders;
  }

  /** After n items. */
  lemma {:induction false} ItemsHold(b: SerialBatch, u: nat, n: nat, k: Key, i: nat)
    requires u < |b.txns| && b.txns[u].NewOrder? && n <= |b.txns[u].items| && AsExecuted(b) && i < b.width(k.table)
    requires k.table in {STOCK, ORDER_LINE}
    ensures |Program(b.txns[u])| == 6 + 4 * |b.txns[u].items|
    ensures WordAt(b, u, 6 + 4 * n, k, i) ==
            ItemsWord(b.txns[u], b.values(u), b.width, WordsOf(b, u), n, k, i)
    decreases n
  {
    hide Program, RowAt, RowOf, WordIn, AsExecuted, ItemsWord, Stock.EpicDeduct;
    var t, v := b.txns[u], b.values(u);
    if n == 0 {
      HeadHolds(b, u, k, i);
      TxnBegins(b, u, k);
      NoItemYet(t, v, b.width, WordsOf(b, u), k, i);
    } else {
      ItemsHold(b, u, n - 1, k, i);
      ItemStock(b, u, n - 1, k, i);
      ItemLine(b, u, n - 1, k, i);
      OneMoreItem(t, v, b.width, WordsOf(b, u), n - 1, k, i);
      if k == Key(ORDER_LINE, t.items[n - 1].orderLine) && i != S_QUANTITY && i < b.width(STOCK) {
        var s := Key(STOCK, t.items[n - 1].stock);
        ItemsHold(b, u, n - 1, s, i);
        ItemStock(b, u, n - 1, s, i);
        OtherStockWord(t, v, b.width, WordsOf(b, u), n - 1, s, i);
      }
    }
  }

  /** Items touch no other tables. */
  lemma {:induction false} ItemsKeep(b: SerialBatch, u: nat, k: Key)
    requires u < |b.txns| && b.txns[u].NewOrder? && k.table !in {STOCK, ORDER_LINE}
    ensures |Program(b.txns[u])| == 6 + 4 * |b.txns[u].items|
    ensures RowAt(b, u, 6 + 4 * |b.txns[u].items|, k) == RowAt(b, u, 6, k)
  {
    hide Program, RowAt;
    var t := b.txns[u];
    NewOrderHead(t);
    forall p: nat | 6 <= p < |Program(t)| ensures Program(t)[p].write ==> KeyOf(Program(t)[p]) != k {
      var l, r := (p - 6) / 4, (p - 6) % 4;
      NewOrderItem(t, l);
      assert p == 6 + 4 * l + r;
    }
    RowKept(b, u, 6, |Program(t)|, k);
  }

  lemma {:induction false} NewOrderHolds(b: SerialBatch, u: nat, k: Key, i: nat)
    requires u < |b.txns| && b.txns[u].NewOrder? && AsExecuted(b) && i < b.width(k.table)
    ensures WordIn(RowOf(b, u + 1, k), i) ==
            NewOrderWord(b.txns[u], b.values(u), b.width, WordsOf(b, u), k, i)
  {
    hide Program, RowAt, RowOf, WordIn, AsExecuted, Quantity, Ordered, LastUnder;
    var t := b.txns[u];
    TxnBegins(b, u, k);
    NewOrderHead(t);
    if k.table in {STOCK, ORDER_LINE} {
      ItemsHold(b, u, |t.items|, k, i);
    } else {
      HeadHolds(b, u, k, i);
      TxnBegins(b, u, Key(CUSTOMER, t.customer));
      ItemsKeep(b, u, k);
    }
  }

  // ------------------------------------------------------------------ Payment

  lemma PaymentLanes(t: Params, v: Values, x: Touch, seen: seq<Row>, i: nat, adder: nat)
    requires t.Payment? && x.table in {WAREHOUSE, DISTRICT, CUSTOMER}
    ensures var w := Register(seen, i);
            LaneWrite(t, v, x, seen, i, adder) ==
            if (x.table == WAREHOUSE && i == W_YTD) || (x.table == DISTRICT && i == D_YTD) then
              (w + v.paymentAmount) % WORD
            else if x.table == CUSTOMER && i == C_BALANCE then (w - v.paymentAmount) % WORD
            else if x.table == CUSTOMER && i == C_YTD_PAYMENT then (w + v.paymentAmount) % WORD
            else if x.table == CUSTOMER && i == C_PAYMENT_CNT then (w + 1) % WORD
            else w
  {
    hide Register;
    Subtracted(Register(seen, i), v.paymentAmount);
  }

  lemma Subtracted(w: nat, amount: nat)
    ensures SubWord(w, amount) == (w - amount) % WORD
  {}

  lemma {:induction false} PaymentUpdate(b: SerialBatch, u: nat, p: nat, k: Key, i: nat)
    requires u < |b.txns| && b.txns[u].Payment? && i < b.width(k.table) && p in {0, 2, 4}
    ensures |Program(b.txns[u])| == 6
    ensures WordAt(b, u, p + 2, k, i) ==
            if k == KeyOf(Program(b.txns[u])[p])
            then PaymentWord(b.txns[u], b.values(u), (k': Key, i': nat) => WordAt(b, u, p, k, i), k, i)
            else WordAt(b, u, p, k, i)
  {
    hide Program, RowAt, SeenAt, LaneWrite, Register, WordIn;
    var t := b.txns[u];
    PaymentTouches(t);
    UpdatedWord(b, u, p, k, i);
    PaymentLanes(t, b.values(u), Program(t)[p + 1], SeenAt(b, u, p + 2), i, b.adder);
  }

  lemma {:induction false} PaymentHolds(b: SerialBatch, u: nat, k: Key, i: nat)
    requires u < |b.txns| && b.txns[u].Payment? && i < b.width(k.table)
    ensures WordIn(RowOf(b, u + 1, k), i) == PaymentWord(b.txns[u], b.values(u), WordsOf(b, u), k, i)
  {
    hide Program, RowAt, RowOf, WordIn;
    TxnBegins(b, u, k);
    PaymentTouches(b.txns[u]);
    PaymentUpdate(b, u, 0, k, i);
    PaymentUpdate(b, u, 2, k, i);
    PaymentUpdate(b, u, 4, k, i);
  }

  // ------------------------------------------------------------------ Delivery

  lemma DeliveryLanes(t: Params, v: Values, x: Touch, seen: seq<Row>, i: nat, adder: nat)
    requires t.Delivery? && x.table in {ORDER, ORDER_LINE, CUSTOMER} && adder == C_BALANCE && seen != []
    ensures var w := Register(seen, i);
            LaneWrite(t, v, x, seen, i, adder) ==
            if x.table == ORDER && i == O_CARRIER_ID then v.carrierId
            else if x.table == ORDER_LINE && i == OL_DELIVERY_D then v.deliveryD
            else if x.table == CUSTOMER && i == C_BALANCE then w % WORD
            else if x.table == CUSTOMER && i == C_DELIVERY_CNT then (w + 1) % WORD
            else w
  {
    hide Register, Accumulated;
    OthersAddNothing(seen[..|seen| - 1], LinesOf(t.entries, x.word), adder);
  }

  /** What one update in a Delivery does to a word. */
  lemma {:induction false} DeliveryUpdate(b: SerialBatch, u: nat, p: nat, k: Key, i: nat)
    requires u < |b.txns| && b.txns[u].Delivery? && Updates(b.txns[u], p) && i < b.width(k.table)
    requires Program(b.txns[u])[p].table in {ORDER, ORDER_LINE, CUSTOMER} && b.adder == C_BALANCE
    ensures var w := WordAt(b, u, p, k, i);
            WordAt(b, u, p + 2, k, i) ==
            if k != KeyOf(Program(b.txns[u])[p]) then w
            else if k.table == ORDER && i == O_CARRIER_ID then b.values(u).carrierId
            else if k.table == ORDER_LINE && i == OL_DELIVERY_D then b.values(u).deliveryD
            else if k.table == CUSTOMER && i == C_BALANCE then w % WORD
            else if k.table == CUSTOMER && i == C_DELIVERY_CNT then (w + 1) % WORD
            else w
  {
    hide Program, RowAt, SeenAt, LaneWrite, Register, WordIn;
    var t := b.txns[u];
    UpdatedWord(b, u, p, k, i);
    ReadStep(b, u, p, k);
    WriteStep(b, u, p + 1, k);
    DeliveryLanes(t, b.values(u), Program(t)[p + 1], SeenAt(b, u, p + 2), i, b.adder);
  }

  /** The order of entry e. */
  lemma {:induction false} EntryOrder(b: SerialBatch, u: nat, e: nat, k: Key, i: nat)
    requires u < |b.txns| && b.txns[u].Delivery? && e < |b.txns[u].entries| && i < b.width(k.table)
    requires b.adder == C_BALANCE
    ensures var t := b.txns[u];
            && LineAccess(t, e, 0) <= |Program(t)| && EntryStart(t, e) <= |Program(t)|
            && WordAt(b, u, LineAccess(t, e, 0), k, i) ==
               if k == Key(ORDER, t.entries[e].order) && i == O_CARRIER_ID then b.values(u).carrierId
               else WordAt(b, u, EntryStart(t, e), k, i)
  {
    hide Program, RowAt, EntryStart, WordIn, EntryProgram;
    var t := b.txns[u];
    var p := EntryStart(t, e);
    EntryHead(t.entries[e], e);
    AccessOfEntry(t, e, 0);
    AccessOfEntry(t, e, 1);
    AccessOfEntry(t, e, 2);
    ReadStep(b, u, p, k);
    DeliveryUpdate(b, u, p + 1, k, i);
  }

  /** The first m lines of entry e. */
  lemma {:induction false} EntryLines(b: SerialBatch, u: nat, e: nat, m: nat, k: Key, i: nat)
    requires u < |b.txns| && b.txns[u].Delivery? && e < |b.txns[u].entries| && i < b.width(k.table)
    requires m <= |b.txns[u].entries[e].orderLines| && b.adder == C_BALANCE
    ensures var t := b.txns[u];
            && LineAccess(t, e, m) <= |Program(t)| && LineAccess(t, e, 0) <= |Program(t)|
            && WordAt(b, u, LineAccess(t, e, m), k, i) ==
               if k.table == ORDER_LINE && i == OL_DELIVERY_D && k.row in t.entries[e].orderLines[..m]
               then b.values(u).deliveryD
               else WordAt(b, u, LineAccess(t, e, 0), k, i)
    decreases m
  {
    hide Program, RowAt, EntryStart, WordIn;
    var t := b.txns[u];
    LineAccessFits(t, e, m);
    LineAccessFits(t, e, 0);
    if m > 0 {
      var lines := t.entries[e].orderLines;
      EntryLines(b, u, e, m - 1, k, i);
      LineIsUpdated(t, e, m - 1);
      DeliveryUpdate(b, u, LineAccess(t, e, m - 1), k, i);
      assert lines[..m] == lines[..m - 1] + [lines[m - 1]];
    }
  }

  /** Entry e as a whole. */
  lemma {:induction false} EntryHolds(b: SerialBatch, u: nat, e: nat, k: Key, i: nat)
    requires u < |b.txns| && b.txns[u].Delivery? && e < |b.txns[u].entries| && i < b.width(k.table)
    requires b.adder == C_BALANCE
    ensures var t, x := b.txns[u], b.txns[u].entries[e];
            && EntryStart(t, e) <= |Program(t)| && EntryStart(t, e + 1) <= |Program(t)|
            && var w := WordAt(b, u, EntryStart(t, e), k, i);
               WordAt(b, u, EntryStart(t, e + 1), k, i) ==
               if k == Key(ORDER, x.order) && i == O_CARRIER_ID then b.values(u).carrierId
               else if k.table == ORDER_LINE && i == OL_DELIVERY_D && k.row in x.orderLines then b.values(u).deliveryD
               else if k == Key(CUSTOMER, x.customer) && i == C_BALANCE then w % WORD
               else if k == Key(CUSTOMER, x.customer) && i == C_DELIVERY_CNT then (w + 1) % WORD
               else w
  {
    hide Program, RowAt, EntryStart, WordIn, LineAccess;
    var t := b.txns[u];
    var lines := t.entries[e].orderLines;
    EntryOrder(b, u, e, k, i);
    EntryLines(b, u, e, |lines|, k, i);
    assert lines[..|lines|] == lines;
    CustomerIsUpdated(t, e);
    DeliveryUpdate(b, u, LineAccess(t, e, |lines|), k, i);
  }

  lemma {:induction false} OneMoreEntry(t: Params, v: Values, before: Words, n: nat, k: Key, i: nat)
    requires t.Delivery? && n < |t.entries|
    ensures var x, w := t.entries[n], EntriesWord(t, v, before, n, k, i);
            EntriesWord(t, v, before, n + 1, k, i) ==
            if k == Key(ORDER, x.order) && i == O_CARRIER_ID then v.carrierId
            else if k.table == ORDER_LINE && i == OL_DELIVERY_D && k.row in x.orderLines then v.deliveryD
            else if k == Key(CUSTOMER, x.customer) && i == C_BALANCE then w % WORD
            else if k == Key(CUSTOMER, x.customer) && i == C_DELIVERY_CNT then (w + 1) % WORD
            else w
  {
    hide HasDelivered, HasDeliveredLine, EntriesOf;
    if k.table == CUSTOMER {
      OneMoreOf(t.entries, k.row, n);
      Wrapped(before(k, i));
      Wrapped(before(k, i) + EntriesOf(t.entries, k.row, n));
    } else {
      OneMoreDelivered(t.entries, k.row, n);
    }
  }

  lemma OneMoreOf(entries: seq<Delivered>, customer: nat, n: nat)
    requires n < |entries|
    ensures EntriesOf(entries, customer, n + 1) ==
            EntriesOf(entries, customer, n) + if entries[n].customer == customer then 1 else 0
  {}

  lemma Wrapped(w: nat)
    ensures w % WORD % WORD == w % WORD && (w % WORD + 1) % WORD == (w + 1) % WORD
  {}

  lemma OneMoreDelivered(entries: seq<Delivered>, row: nat, n: nat)
    requires n < |entries|
    ensures HasDelivered(entries, row, n + 1) <==> HasDelivered(entries, row, n) || entries[n].order == row
    ensures HasDeliveredLine(entries, row, n + 1) <==> HasDeliveredLine(entries, row, n) || row in entries[n].orderLines
  {}

  lemma NothingDelivered(t: Params, v: Values, before: Words, k: Key, i: nat)
    requires t.Delivery?
    ensures EntriesWord(t, v, before, 0, k, i) == before(k, i)
  {}

  /** After n entries. */
  lemma {:induction false} EntriesHold(b: SerialBatch, u: nat, n: nat, k: Key, i: nat)
    requires u < |b.txns| && b.txns[u].Delivery? && n <= |b.txns[u].entries| && i < b.width(k.table)
    requires b.adder == C_BALANCE
    ensures var t := b.txns[u];
            && EntryStart(t, n) <= |Program(t)|
            && WordAt(b, u, EntryStart(t, n), k, i) == EntriesWord(t, b.values(u), WordsOf(b, u), n, k, i)
    decreases n
  {
    hide Program, RowAt, RowOf, WordIn, EntriesWord;
    if n == 0 {
      TxnBegins(b, u, k);
      NothingDelivered(b.txns[u], b.values(u), WordsOf(b, u), k, i);
    } else {
      EntriesHold(b, u, n - 1, k, i);
      hide EntryStart;
      EntryHolds(b, u, n - 1, k, i);
      OneMoreEntry(b.txns[u], b.values(u), WordsOf(b, u), n - 1, k, i);
    }
  }

  // ------------------------------------------------------------------ whole batches

  lemma {:induction false} ReadersKeep(b: SerialBatch, u: nat, k: Key)
    requires u < |b.txns| && (b.txns[u].OrderStatus? || b.txns[u].StockLevel?)
    ensures RowOf(b, u + 1, k) == RowOf(b, u, k)
  {
    hide Program, RowAt, RowOf;
    var t := b.txns[u];
    TxnBegins(b, u, k);
    forall p: nat | p < |Program(t)| ensures !Program(t)[p].write { OnlyReads(t, p); }
    RowKept(b, u, 0, |Program(t)|, k);
  }

  lemma {:induction false} OnlyReads(t: Params, p: nat)
    requires (t.OrderStatus? || t.StockLevel?) && p < |Program(t)|
    ensures !Program(t)[p].write
  {
    hide Program;
    if t.OrderStatus? {
      OrderStatusReads(t, if p >= 2 then p - 2 else 0);
    } else {
      StockLevelReads(t, p);
    }
  }

  /** The accesses and lanes of a transaction do to every word what the transaction does. */
  lemma {:induction false} TxnHolds(b: SerialBatch, u: nat, k: Key, i: nat)
    requires u < |b.txns| && AsExecuted(b) && i < b.width(k.table)
    ensures WordIn(RowOf(b, u + 1, k), i) == TxnWord(b.txns[u], b.values(u), b.width, WordsOf(b, u), k, i)
  {
    hide Program, RowAt, RowOf, WordIn, NewOrderWord, PaymentWord, EntriesWord, EntryStart;
    match b.txns[u] {
      case NewOrder(_, _, _, _, _, _) => NewOrderHolds(b, u, k, i);
      case Payment(_, _, _) => PaymentHolds(b, u, k, i);
      case Delivery(entries) =>
        TxnBegins(b, u, k);
        EntriesHold(b, u, |entries|, k, i);
        ProgramEnds(b.txns[u]);
      case _ => ReadersKeep(b, u, k);
    }
  }

  function BeginOf(db: Database): Words { (k: Key, i: nat) => WordIn(db(k), i) }

  function RunOf(b: SerialBatch): WordRun { WordRun(b.txns, b.values, b.width, BeginOf(b.db)) }

  /** So does the serial run of a batch: before every transaction every word is what the transactions
      before it have made of it. */
  lemma {:induction false} WordsHold(b: SerialBatch, u: nat, k: Key, i: nat)
    requires u <= |b.txns| && AsExecuted(b) && i < b.width(k.table)
    ensures WordIn(RowOf(b, u, k), i) == WordAfter(RunOf(b), u, k, i)
    decreases u
  {
    hide RowOf, WordIn, TxnWord, AsExecuted;
    if u == 0 {
      NothingBefore(b, k);
    } else {
      TxnHolds(b, u - 1, k, i);
      var w, w' := WordsOf(b, u - 1), (k': Key, i': nat) => WordAfter(RunOf(b), u - 1, k', i');
      forall k': Key, i': nat | i' < b.width(k'.table) ensures w(k', i') == w'(k', i') {
        WordsHold(b, u - 1, k', i');
      }
      SameWords(b.txns[u - 1], b.values(u - 1), b.width, w, w', k, i);
    }
  }
}
