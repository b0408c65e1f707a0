/** Which rows a TPC-C transaction reads and writes, and in which words of its plan it looks for the
    locations: every access of every transaction, by its place. */
module TpccProgram {
  import opened TpccSubmitter
  import opened TpccTables

  // ------------------------------------------------------------------ NewOrder and Payment

  lemma {:induction false} ItemsShape(items: seq<Item>, n: nat, l: nat)
    requires l < n <= |items|
    ensures |ItemsProgram(items, n)| == 4 * n
    ensures ItemsProgram(items, n)[4 * l..4 * l + 4] == ItemProgram(items[l], l)
  {
    hide ItemProgram;
    ItemsLength(items, n);
    ItemsLength(items, n - 1);
    FourTouches(items[n - 1], n - 1);
    if l < n - 1 { ItemsShape(items, n - 1, l); }
  }

  lemma FourTouches(item: Item, i: nat)
    ensures |ItemProgram(item, i)| == 4
  {}

  lemma {:induction false} ItemsLength(items: seq<Item>, n: nat)
    requires n <= |items|
    ensures |ItemsProgram(items, n)| == 4 * n
  {
    if n > 0 { ItemsLength(items, n - 1); }
  }

  /** A NewOrder's accesses before its items. */
  lemma NewOrderHead(t: Params)
    requires t.NewOrder?
    ensures var p := Program(t);
            && |p| == 6 + 4 * |t.items|
            && p[0] == Touch(WAREHOUSE, t.warehouse, false, 0)
            && p[1] == Touch(DISTRICT, t.district, false, 1) && p[2] == Touch(DISTRICT, t.district, true, 2)
            && p[3] == Touch(CUSTOMER, t.customer, false, 3)
            && p[4] == Touch(ORDER, t.order, true, 5) && p[5] == Touch(NEW_ORDER, t.newOrder, true, 4)
  {
    hide ItemsProgram;
    ItemsLength(t.items, |t.items|);
  }

  /** Its accesses for item l: the item and its stock are read, the stock and the order line are
      written. */
  lemma {:induction false} NewOrderItem(t: Params, l: nat)
    requires t.NewOrder? && l < |t.items|
    ensures var p, q, x := Program(t), 6 + 4 * l, t.items[l];
            && |p| == 6 + 4 * |t.items|
            && p[q] == Touch(ITEM, x.item, false, 6 + 4 * l)
            && p[q + 1] == Touch(STOCK, x.stock, false, 7 + 4 * l)
            && p[q + 2] == Touch(STOCK, x.stock, true, 8 + 4 * l)
            && p[q + 3] == Touch(ORDER_LINE, x.orderLine, true, 9 + 4 * l)
  {
    hide ItemsProgram;
    var items := ItemsProgram(t.items, |t.items|);
    ItemsShape(t.items, |t.items|, l);
    forall i: nat | i < 4 ensures Program(t)[6 + 4 * l + i] == ItemProgram(t.items[l], l)[i] {
      assert items[4 * l..4 * l + 4][i] == items[4 * l + i];
    }
  }

  /** A Payment reads and writes its three rows in turn. */
  lemma PaymentTouches(t: Params)
    requires t.Payment?
    ensures Program(t) == [Touch(WAREHOUSE, t.warehouse, false, 0), Touch(WAREHOUSE, t.warehouse, true, 1),
                           Touch(DISTRICT, t.district, false, 2), Touch(DISTRICT, t.district, true, 3),
                           Touch(CUSTOMER, t.customer, false, 4), Touch(CUSTOMER, t.customer, true, 5)]
  {}

  // ------------------------------------------------------------------ OrderStatus and StockLevel

  lemma {:induction false} ReadsShape(table: nat, rows: seq<nat>, first: nat, n: nat, j: nat)
    requires n <= |rows|
    ensures |Reads(table, rows, first, n)| == n
    ensures j < n ==> Reads(table, rows, first, n)[j] == Touch(table, rows[j], false, first + j)
    decreases n
  {
    if n > 0 { ReadsShape(table, rows, first, n - 1, j); }
  }

  /** An OrderStatus reads the customer, the order and then each of the order's lines, and nothing else. */
  lemma {:induction false} OrderStatusReads(t: Params, j: nat)
    requires t.OrderStatus?
    ensures var p := Program(t);
            && |p| == 2 + |t.orderLines|
            && p[0] == Touch(CUSTOMER, t.customer, false, 0) && p[1] == Touch(ORDER, t.order, false, 1)
            && (j < |t.orderLines| ==> p[2 + j] == Touch(ORDER_LINE, t.orderLines[j], false, 2 + j))
  {
    hide Reads;
    ReadsShape(ORDER_LINE, t.orderLines, 2, |t.orderLines|, j);
  }

  /** A StockLevel reads each of its stock rows, and nothing else. */
  lemma {:induction false} StockLevelReads(t: Params, j: nat)
    requires t.StockLevel?
    ensures |Program(t)| == |t.stocks|
    ensures j < |t.stocks| ==> Program(t)[j] == Touch(STOCK, t.stocks[j], false, j)
  {
    hide Reads;
    ReadsShape(STOCK, t.stocks, 0, |t.stocks|, j);
  }

  // ------------------------------------------------------------------ Delivery

  /** Where entry e begins: five accesses for every entry before it, and two for every line. */
  function EntryStart(t: Params, e: nat): nat
    requires t.Delivery? && e <= |t.entries|
  {
    |EntriesProgram(t.entries, e)|
  }

  lemma {:induction false} LinesShape(lines: seq<nat>, i: nat, n: nat, m: nat)
    requires m < n <= |lines|
    ensures |LinesProgram(lines, i, n)| == 2 * n
    ensures LinesProgram(lines, i, n)[2 * m] == Touch(ORDER_LINE, lines[m], false, DlOrderLineRead(i, m))
    ensures LinesProgram(lines, i, n)[2 * m + 1] == Touch(ORDER_LINE, lines[m], true, DlOrderLineWrite(i, m))
  {
    LinesLength(lines, i, n - 1);
    if m < n - 1 { LinesShape(lines, i, n - 1, m); }
  }

  lemma {:induction false} LinesLength(lines: seq<nat>, i: nat, n: nat)
    requires n <= |lines|
    ensures |LinesProgram(lines, i, n)| == 2 * n
  {
    if n > 0 { LinesLength(lines, i, n - 1); }
  }

  lemma EntryTail(e: Delivered, i: nat)
    ensures var p := EntryProgram(e, i);
            var n := 2 * |e.orderLines|;
            && |p| == n + 5
            && p[n + 3] == Touch(CUSTOMER, e.customer, false, DlCustomerRead(i))
            && p[n + 4] == Touch(CUSTOMER, e.customer, true, DlCustomerWrite(i))
  {
    LinesLength(e.orderLines, i, |e.orderLines|);
    hide LinesProgram;
  }

  lemma EntryLine(e: Delivered, i: nat, m: nat)
    requires m < |e.orderLines|
    ensures var p := EntryProgram(e, i);
            && |p| == 2 * |e.orderLines| + 5
            && p[2 * m + 3] == Touch(ORDER_LINE, e.orderLines[m], false, DlOrderLineRead(i, m))
            && p[2 * m + 4] == Touch(ORDER_LINE, e.orderLines[m], true, DlOrderLineWrite(i, m))
  {
    LinesShape(e.orderLines, i, |e.orderLines|, m);
    hide LinesProgram;
  }

  lemma EntryHead(e: Delivered, i: nat)
    ensures var p := EntryProgram(e, i);
            && |p| == 2 * |e.orderLines| + 5 && p[0] == Touch(NEW_ORDER, e.newOrder, false, DlNewOrderRead(i))
            && p[1] == Touch(ORDER, e.order, false, DlOrderRead(i))
            && p[2] == Touch(ORDER, e.order, true, DlOrderWrite(i))
  {
    LinesLength(e.orderLines, i, |e.orderLines|);
    hide LinesProgram;
  }

  lemma {:induction false} EntriesPrefix(entries: seq<Delivered>, m: nat, n: nat)
    requires m <= n <= |entries|
    ensures EntriesProgram(entries, m) <= EntriesProgram(entries, n)
    decreases n - m
  {
    hide EntryProgram;
    if m < n { EntriesPrefix(entries, m, n - 1); }
  }

  /** Access q of entry e. */
  lemma {:induction false} AccessOfEntry(t: Params, e: nat, q: nat)
    requires t.Delivery? && e < |t.entries| && q < |EntryProgram(t.entries[e], e)|
    ensures EntryStart(t, e) + q < EntryStart(t, e + 1) <= |Program(t)|
    ensures Program(t)[EntryStart(t, e) + q] == EntryProgram(t.entries[e], e)[q]
    ensures EntryStart(t, e + 1) == EntryStart(t, e) + |EntryProgram(t.entries[e], e)|
  {
    hide EntryProgram;
    EntriesPrefix(t.entries, e + 1, |t.entries|);
    var before, entry := EntriesProgram(t.entries, e), EntryProgram(t.entries[e], e);
    assert EntriesProgram(t.entries, e + 1) == before + entry;
    assert (before + entry)[|before| + q] == entry[q];
  }

  lemma {:induction false} EntryStartIs(t: Params, e: nat)
    requires t.Delivery? && e <= |t.entries|
    ensures EntryStart(t, e) == 5 * e + 2 * TotalLines(t.entries, e)
    decreases e
  {
    hide EntryProgram;
    if e > 0 {
      EntryStartIs(t, e - 1);
      EntryHead(t.entries[e - 1], e - 1);
      AccessOfEntry(t, e - 1, 0);
    }
  }

  /** A Delivery's accesses for entry e: the new order and the order are read, the order is written,
      every line is read and written, and so is the customer. */
  lemma {:induction false} DeliveryTouches(t: Params, e: nat, m: nat)
    requires t.Delivery? && e < |t.entries|
    ensures var p, q, x := Program(t), 5 * e + 2 * TotalLines(t.entries, e), t.entries[e];
            var r := q + 3 + 2 * |x.orderLines|;
            && r + 1 < |p| == 5 * |t.entries| + 2 * TotalLines(t.entries, |t.entries|)
            && p[q] == Touch(NEW_ORDER, x.newOrder, false, e)
            && p[q + 1] == Touch(ORDER, x.order, false, 10 + e) && p[q + 2] == Touch(ORDER, x.order, true, 20 + e)
            && (m < |x.orderLines| ==>
                  && p[q + 3 + 2 * m] == Touch(ORDER_LINE, x.orderLines[m], false, 50 + 15 * e + m)
                  && p[q + 4 + 2 * m] == Touch(ORDER_LINE, x.orderLines[m], true, 200 + 15 * e + m))
            && p[r] == Touch(CUSTOMER, x.customer, false, 30 + e)
            && p[r + 1] == Touch(CUSTOMER, x.customer, true, 40 + e)
  {
    hide EntryProgram, Program, EntryStart, TotalLines;
    var x := t.entries[e];
    EntryStartIs(t, e);
    EntryStartIs(t, |t.entries|);
    ProgramEnds(t);
    EntryHead(x, e);
    EntryTail(x, e);
    AccessOfEntry(t, e, 0);
    AccessOfEntry(t, e, 1);
    AccessOfEntry(t, e, 2);
    AccessOfEntry(t, e, 2 * |x.orderLines| + 3);
    AccessOfEntry(t, e, 2 * |x.orderLines| + 4);
    if m < |x.orderLines| {
      EntryLine(x, e, m);
      AccessOfEntry(t, e, 2 * m + 3);
      AccessOfEntry(t, e, 2 * m + 4);
    }
  }

  lemma ProgramEnds(t: Params)
    requires t.Delivery?
    ensures EntryStart(t, |t.entries|) == |Program(t)|
  {}
}
