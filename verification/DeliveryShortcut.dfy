/** Why the executor may hard-code where a Delivery writes its order lines: in every generated
    batch the Delivery is the last to write them. */
module DeliveryShortcut {
  import opened Accesses
  import opened Execution
  import opened TpccTables
  import opened TpccSubmitter
  import opened TpccEpoch
  import opened TpccGenerator
  import opened TpccKeys
  import Index = RowIndex

  /** The order-line rows that indexing gives to transaction x are those of its keys. */
  ghost predicate Indexed(rows: map<LineKey, nat>, x: Input, t: Params) {
    match x
    case NewOrderInput(w, d, _, oId, _, _) =>
      && t.NewOrder? && 1 <= d <= 10
      && forall l: nat | l < |t.items| ::
           var k := LineOf(OrderId(w, d, oId), l); k in rows && t.items[l].orderLine == rows[k]
    case PaymentInput(_, _, _, _, _) => t.Payment?
    case OrderStatusInput(_, _, _, _) => t.OrderStatus?
    case DeliveryInput(w, oId) =>
      && t.Delivery?
      && forall e: nat, l: nat | e < |t.entries| && l < |t.entries[e].orderLines| ::
           var k := LineOf(OrderId(w, e + 1, oId), l); k in rows && t.entries[e].orderLines[l] == rows[k]
    case StockLevelInput(_, _, _) => t.StockLevel?
  }

  /** txns are the indexed transactions of an epoch that begins at transaction first. */
  ghost predicate EpochOf(rows: map<LineKey, nat>, ins: seq<Input>, first: nat, txns: seq<Params>) {
    && first + |txns| <= |ins|
    && forall u: nat | u < |txns| :: Indexed(rows, ins[first + u], txns[u])
  }

  // ------------------------------------------------------------- who writes order lines

  /** The write of line l of entry e of a Delivery. */
  predicate WritesLine(t: Params, x: Touch, e: nat, l: nat) {
    && t.Delivery? && e < |t.entries| && l < |t.entries[e].orderLines|
    && x == Touch(ORDER_LINE, t.entries[e].orderLines[l], true, DlOrderLineWrite(e, l))
  }

  predicate WritesItem(t: Params, x: Touch, l: nat) {
    t.NewOrder? && l < |t.items| && x.row == t.items[l].orderLine
  }

  lemma {:induction false} ItemWrite(items: seq<Item>, n: nat, x: Touch) returns (l: nat)
    requires n <= |items| && x in ItemsProgram(items, n) && x.table == ORDER_LINE && x.write
    ensures l < n && x.row == items[l].orderLine
  {
    if x in ItemsProgram(items, n - 1) {
      l := ItemWrite(items, n - 1, x);
    } else {
      l := n - 1;
    }
  }

  lemma {:induction false} LineWrite(lines: seq<nat>, i: nat, n: nat, x: Touch) returns (l: nat)
    requires n <= |lines| && x in LinesProgram(lines, i, n) && x.write
    ensures l < n && x == Touch(ORDER_LINE, lines[l], true, DlOrderLineWrite(i, l))
  {
    if x in LinesProgram(lines, i, n - 1) {
      l := LineWrite(lines, i, n - 1, x);
    } else {
      l := n - 1;
    }
  }

  lemma {:induction false} EntryWrite(entries: seq<Delivered>, n: nat, x: Touch) returns (e: nat, l: nat)
    requires n <= |entries| && x in EntriesProgram(entries, n) && x.table == ORDER_LINE && x.write
    ensures e < n && l < |entries[e].orderLines| && x ==
            Touch(ORDER_LINE, entries[e].orderLines[l], true, DlOrderLineWrite(e, l))
  {
    if x in EntriesProgram(entries, n - 1) {
      e, l := EntryWrite(entries, n - 1, x);
    } else {
      e := n - 1;
      assert x in EntryProgram(entries[e], e);
      assert x in LinesProgram(entries[e].orderLines, e, |entries[e].orderLines|);
      l := LineWrite(entries[e].orderLines, e, |entries[e].orderLines|, x);
    }
  }

  lemma {:induction false} ReadsDoNotWrite(table: nat, rows: seq<nat>, first: nat, n: nat, x: Touch)
    requires n <= |rows| && x in Reads(table, rows, first, n)
    ensures !x.write
  {
    if x in Reads(table, rows, first, n - 1) { ReadsDoNotWrite(table, rows, first, n - 1, x); }
  }

  /** Only NewOrders and Deliveries write order lines. */
  lemma {:induction false} OrderLineWriter(t: Params, x: Touch) returns (e: nat, l: nat)
    requires x in Program(t) && x.table == ORDER_LINE && x.write
    ensures WritesItem(t, x, l) || WritesLine(t, x, e, l)
  {
    match t
    case NewOrder(_, _, _, _, _, items) =>
      assert x in ItemsProgram(items, |items|);
      l := ItemWrite(items, |items|, x);
      e := 0;
    case Delivery(entries) =>
      e, l := EntryWrite(entries, |entries|, x);
    case OrderStatus(_, _, orderLines) =>
      assert x in Reads(ORDER_LINE, orderLines, 2, |orderLines|);
      ReadsDoNotWrite(ORDER_LINE, orderLines, 2, |orderLines|, x);
    case StockLevel(stocks) => ReadsDoNotWrite(STOCK, stocks, 0, |stocks|, x);
    case Payment(_, _, _) =>
  }

  // ------------------------------------------------------------------ the theorem

  /** The key of the order line that a write is about. */
  lemma {:induction false} WriteKey(rows: map<LineKey, nat>, x: Input, t: Params, y: Touch) returns (k: LineKey)
    requires Indexed(rows, x, t) && y in Program(t) && y.table == ORDER_LINE && y.write
    ensures x.NewOrderInput? || x.DeliveryInput?
    ensures k in rows && rows[k] == y.row && k.w == x.w && k.o == x.oId && 1 <= k.d
    ensures x.NewOrderInput? ==> k.d == x.d && 1 <= k.d <= 10
  {
    hide Program;
    var e, l := OrderLineWriter(t, y);
    k := LineOf(OrderId(x.w, if x.NewOrderInput? then x.d else e + 1, x.oId), l);
  }

  lemma TxnIndexed(rows: map<LineKey, nat>, ins: seq<Input>, first: nat, txns: seq<Params>, u: nat)
    requires EpochOf(rows, ins, first, txns) && u < |txns|
    ensures first + |txns| <= |ins| && Indexed(rows, ins[first + u], txns[u])
    ensures txns[u].Delivery? ==> ins[first + u].DeliveryInput?
  {}

  /** A delivered line is written by no later transaction of the epoch ... */
  lemma {:induction false} NoLaterTxn(rows: map<LineKey, nat>, ins: seq<Input>, first: nat, txns: seq<Params>,
                                      u: nat, v: nat, x: Touch, y: Touch)
    requires Index.Injective(rows) && Generated(ins) && EpochOf(rows, ins, first, txns)
    requires u < v < |txns| && txns[u].Delivery? && x in Program(txns[u]) && y in Program(txns[v])
    requires x.table == ORDER_LINE == y.table && x.write && y.write
    ensures x.row != y.row
  {
    hide Program, EpochOf, Indexed, Generated;
    var i, j := first + u, first + v;
    TxnIndexed(rows, ins, first, txns, u);
    TxnIndexed(rows, ins, first, txns, v);
    var k := WriteKey(rows, ins[i], txns[u], x);
    var k' := WriteKey(rows, ins[j], txns[v], y);
    if k == k' {
      if ins[j].NewOrderInput? {
        DeliveredAfterOrdered(ins, i, j);
      } else {
        DeliveredOnce(ins, i, j);
      }
    }
  }

  /** ... and by the Delivery itself only once. */
  lemma {:induction false} NotTwice(rows: map<LineKey, nat>, ins: seq<Input>, first: nat, txns: seq<Params>, u: nat,
                                    g: nat, h: nat)
    requires Index.Injective(rows) && EpochOf(rows, ins, first, txns) && u < |txns| && txns[u].Delivery?
             && Fits(txns[u])
    requires g < h < |Program(txns[u])|
    requires var x, y := Program(txns[u])[g], Program(txns[u])[h];
             x.table == ORDER_LINE == y.table && x.write && y.write
    ensures Program(txns[u])[g].row != Program(txns[u])[h].row
  {
    var x, y := Program(txns[u])[g], Program(txns[u])[h];
    assert Indexed(rows, ins[first + u], txns[u]);
    var e, l := OrderLineWriter(txns[u], x);
    var e', l' := OrderLineWriter(txns[u], y);
    ProgramWords(txns[u]);
    assert x.word != y.word;
    hide Program, EpochOf;
  }

  /** In every epoch of every generated run the Delivery shortcut is right. */
  lemma {:induction false} GeneratedBatchesDeliverLast(rows: map<LineKey, nat>, ins: seq<Input>, first: nat,
                                                       txns: seq<Params>)
    requires Index.Injective(rows) && Generated(ins) && EpochOf(rows, ins, first, txns) && AllFit(txns)
    ensures DeliveredLast(txns)
  {
    var all := All(txns, |txns|);
    hide Generated, EpochOf;
    forall g: nat | g < |all| && IsShortcut(txns, all[g]) ensures NoLaterWrite(ExecutedAccesses(all), g) {
      forall h | g < h < |all| ensures !WritesAt(ExecutedAccesses(all), ExecutedAccesses(all)[g].key, h) {
        LaterAccess(rows, ins, first, txns, g, h);
      }
    }
  }

  lemma {:induction false} LaterAccess(rows: map<LineKey, nat>, ins: seq<Input>, first: nat, txns: seq<Params>, g: nat,
                                       h: nat)
    requires Index.Injective(rows) && Generated(ins) && EpochOf(rows, ins, first, txns) && AllFit(txns)
    requires g < h < |All(txns, |txns|)| && IsShortcut(txns, All(txns, |txns|)[g])
    ensures var all := All(txns, |txns|);
            all[h].touch.write && all[h].touch.table == ORDER_LINE ==> all[h].touch.row != all[g].touch.row
  {
    hide All, Generated, EpochOf, Program, Index.Injective;
    var all := All(txns, |txns|);
    AllOwner(txns, |txns|, g);
    AllOwner(txns, |txns|, h);
    var u, v := all[g].txn, all[h].txn;
    AllInOrder(txns, g, h);
    assert Fits(txns[u]);
    hide Fits, AllFit;
    if all[h].touch.write && all[h].touch.table == ORDER_LINE {
      if u < v {
        NoLaterTxn(rows, ins, first, txns, u, v, all[g].touch, all[h].touch);
      } else {
        NotTwice(rows, ins, first, txns, u, g - |All(txns, u)|, h - |All(txns, u)|);
      }
    }
  }

  lemma {:induction false} AllInOrder(txns: seq<Params>, g: nat, h: nat)
    requires g < h < |All(txns, |txns|)|
    ensures All(txns, |txns|)[g].txn <= All(txns, |txns|)[h].txn
  {
    hide All, Program;
    AllOwner(txns, |txns|, g);
    AllOwner(txns, |txns|, h);
    var u, v := All(txns, |txns|)[g].txn, All(txns, |txns|)[h].txn;
    if v < u { AllPrefix(txns, v + 1, u); }
  }
}
