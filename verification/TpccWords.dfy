/** What TPC-C transactions do to the words of the database, said of whole transactions: which words
    change, and to what.  There are no accesses, registers or lanes here. */
module TpccWords {
  import opened Execution
  import opened Machine
  import opened TpccLanes
  import opened TpccSubmitter
  import opened TpccTables
  import Stock

  type Words = (Key, nat) -> nat

  // ------------------------------------------------------------------ one transaction

  /** The orders for a stock row among the first n items, in 32-bit words. */
  function Ordered(items: seq<Item>, quantities: nat -> nat, stock: nat, n: nat): seq<uint32>
    requires n <= |items|
  {
    if n == 0 then []
    else Ordered(items, quantities, stock, n - 1)
         + (if items[n - 1].stock == stock then [quantities(n - 1) % WORD] else [])
  }

  /** A stock quantity after some orders. */
  function Quantity(before: nat, orders: seq<uint32>): nat {
    if orders == [] then before else Stock.EpicSell(before % WORD, orders)
  }

  /** The last of the first n items that is recorded under a line, or -1. */
  function LastUnder(items: seq<Item>, line: nat, n: nat): (l: int)
    requires n <= |items|
    ensures -1 <= l < n && (l >= 0 ==> items[l].orderLine == line)
    ensures forall m: nat | l < m < n :: items[m].orderLine != line
  {
    if n == 0 then -1 else if items[n - 1].orderLine == line then n - 1 else LastUnder(items, line, n - 1)
  }

  /** A lane beyond the end of a row reads zero. */
  function Copied(width: nat -> nat, before: Words, k: Key, i: nat): nat {
    if i < width(k.table) then before(k, i) else 0
  }

  /** What a NewOrder leaves in the order line of its item l.  The words that it does not set are those
      of the stock row, which was read last. */
  function LineWord(t: Params, v: Values, width: nat -> nat, before: Words, l: nat, i: nat): nat
    requires t.NewOrder? && l < |t.items|
  {
    if i == OL_I_ID then t.items[l].item
    else if i == OL_AMOUNT || i == OL_QUANTITY then v.quantities(l)
    else if i == OL_SUPPLY_W_ID then t.warehouse
    else Copied(width, before, Key(STOCK, t.items[l].stock), i)
  }

  /** Stock and order lines after the first n items of a NewOrder. */
  function ItemsWord(t: Params, v: Values, width: nat -> nat, before: Words, n: nat, k: Key, i: nat): nat
    requires t.NewOrder? && n <= |t.items|
  {
    if k.table == STOCK && i == S_QUANTITY then Quantity(before(k, i), Ordered(t.items, v.quantities, k.row, n))
    else if k.table == ORDER_LINE then
      var l := LastUnder(t.items, k.row, n);
      if l >= 0 then LineWord(t, v, width, before, l, i) else before(k, i)
    else before(k, i)
  }

  /** The district gets its next order id.  Order and new order get the words of the customer's row,
      which was read last. */
  function NewOrderWord(t: Params, v: Values, width: nat -> nat, before: Words, k: Key, i: nat): nat
    requires t.NewOrder?
  {
    if k == Key(DISTRICT, t.district) && i == D_NEXT_O_ID then v.nextOrderId
    else if k == Key(ORDER, t.order) || k == Key(NEW_ORDER, t.newOrder) then
      Copied(width, before, Key(CUSTOMER, t.customer), i)
    else ItemsWord(t, v, width, before, |t.items|, k, i)
  }

  function PaymentWord(t: Params, v: Values, before: Words, k: Key, i: nat): nat
    requires t.Payment?
  {
    var w := before(k, i);
    if k == Key(WAREHOUSE, t.warehouse) && i == W_YTD then (w + v.paymentAmount) % WORD
    else if k == Key(DISTRICT, t.district) && i == D_YTD then (w + v.paymentAmount) % WORD
    else if k == Key(CUSTOMER, t.customer) && i == C_BALANCE then (w - v.paymentAmount) % WORD
    else if k == Key(CUSTOMER, t.customer) && i == C_YTD_PAYMENT then (w + v.paymentAmount) % WORD
    else if k == Key(CUSTOMER, t.customer) && i == C_PAYMENT_CNT then (w + 1) % WORD
    else w
  }

  /** How many of the first n entries are a customer's. */
  function EntriesOf(entries: seq<Delivered>, customer: nat, n: nat): nat
    requires n <= |entries|
  {
    if n == 0 then 0
    else EntriesOf(entries, customer, n - 1) + if entries[n - 1].customer == customer then 1 else 0
  }

  predicate HasDelivered(entries: seq<Delivered>, order: nat, n: nat)
    requires n <= |entries|
  {
    exists e: nat :: e < n && entries[e].order == order
  }

  predicate HasDeliveredLine(entries: seq<Delivered>, line: nat, n: nat)
    requires n <= |entries|
  {
    exists e: nat :: e < n && line in entries[e].orderLines
  }

  /** After the first n entries of a Delivery.  To the balance the lanes as they are add nothing. */
  function EntriesWord(t: Params, v: Values, before: Words, n: nat, k: Key, i: nat): nat
    requires t.Delivery? && n <= |t.entries|
  {
    var w := before(k, i);
    if k.table == ORDER && i == O_CARRIER_ID && HasDelivered(t.entries, k.row, n) then v.carrierId
    else if k.table == ORDER_LINE && i == OL_DELIVERY_D && HasDeliveredLine(t.entries, k.row, n) then v.deliveryD
    else if k.table == CUSTOMER && EntriesOf(t.entries, k.row, n) > 0 then
      if i == C_BALANCE then w % WORD
      else if i == C_DELIVERY_CNT then (w + EntriesOf(t.entries, k.row, n)) % WORD
      else w
    else w
  }

  /** Word i of row k after transaction t. */
  function TxnWord(t: Params, v: Values, width: nat -> nat, before: Words, k: Key, i: nat): nat {
    match t
    case NewOrder(_, _, _, _, _, _) => NewOrderWord(t, v, width, before, k, i)
    case Payment(_, _, _) => PaymentWord(t, v, before, k, i)
    case Delivery(entries) => EntriesWord(t, v, before, |entries|, k, i)
    case OrderStatus(_, _, _) => before(k, i)
    case StockLevel(_) => before(k, i)
  }

  lemma SameWords(t: Params, v: Values, width: nat -> nat, w: Words, w': Words, k: Key, i: nat)
    requires i < width(k.table)
    requires forall k': Key, i': nat | i' < width(k'.table) :: w(k', i') == w'(k', i')
    ensures TxnWord(t, v, width, w, k, i) == TxnWord(t, v, width, w', k, i)
  {
    hide Ordered, LastUnder, Quantity, EntriesOf, HasDelivered, HasDeliveredLine;
  }

  // ------------------------------------------------------------------ one after the other

  /** Transactions, and the words they begin with. */
  datatype WordRun = WordRun(txns: seq<Params>, values: nat -> Values, width: nat -> nat, begin: Words)

  /** Word i of row k after the first u transactions. */
  function WordAfter(r: WordRun, u: nat, k: Key, i: nat): nat
    requires u <= |r.txns|
  {
    if u == 0 then r.begin(k, i)
    else
      TxnWord(r.txns[u - 1], r.values(u - 1), r.width,
              (k': Key, i': nat) => WordAfter(r, u - 1, k', i'), k, i)
  }

  // ------------------------------------------------------------------ what may change

  /** Transaction t may change word i of row k. */
  ghost predicate Sets(t: Params, k: Key, i: nat) {
    match t
    case NewOrder(_, d, _, newOrder, order, items) =>
      || (k == Key(DISTRICT, d) && i == D_NEXT_O_ID) || k == Key(ORDER, order) || k == Key(NEW_ORDER, newOrder)
      || (k.table == STOCK && i == S_QUANTITY && exists l: nat :: l < |items| && items[l].stock == k.row)
      || (k.table == ORDER_LINE && exists l: nat :: l < |items| && items[l].orderLine == k.row)
    case Payment(w, d, c) =>
      || (k == Key(WAREHOUSE, w) && i == W_YTD) || (k == Key(DISTRICT, d) && i == D_YTD)
      || (k == Key(CUSTOMER, c) && i in {C_BALANCE, C_YTD_PAYMENT, C_PAYMENT_CNT})
    case Delivery(entries) =>
      || (k.table == ORDER && i == O_CARRIER_ID && HasDelivered(entries, k.row, |entries|))
      || (k.table == ORDER_LINE && i == OL_DELIVERY_D && HasDeliveredLine(entries, k.row, |entries|))
      || (k.table == CUSTOMER && i in {C_BALANCE, C_DELIVERY_CNT}
          && exists e: nat :: e < |entries| && entries[e].customer == k.row)
    case OrderStatus(_, _, _) => false
    case StockLevel(_) => false
  }

  lemma {:induction false} NothingOrdered(items: seq<Item>, quantities: nat -> nat, stock: nat, n: nat)
    requires n <= |items| && forall l: nat | l < n :: items[l].stock != stock
    ensures Ordered(items, quantities, stock, n) == []
  {
    if n > 0 { NothingOrdered(items, quantities, stock, n - 1); }
  }

  lemma {:induction false} NoEntryOf(entries: seq<Delivered>, customer: nat, n: nat)
    requires n <= |entries| && forall e: nat | e < n :: entries[e].customer != customer
    ensures EntriesOf(entries, customer, n) == 0
  {
    if n > 0 { NoEntryOf(entries, customer, n - 1); }
  }

  lemma {:induction false} NotSet(t: Params, v: Values, width: nat -> nat, before: Words, k: Key, i: nat)
    requires !Sets(t, k, i)
    ensures TxnWord(t, v, width, before, k, i) == before(k, i)
  {
    match t
    case NewOrder(_, _, _, _, _, items) =>
      if k.table == STOCK && i == S_QUANTITY { NothingOrdered(items, v.quantities, k.row, |items|); }
    case Delivery(entries) =>
      if k.table == CUSTOMER && i in {C_BALANCE, C_DELIVERY_CNT} { NoEntryOf(entries, k.row, |entries|); }
    case _ =>
  }

  /** A word that no transaction from u to n may change is kept. */
  lemma {:induction false} Kept(r: WordRun, u: nat, n: nat, k: Key, i: nat)
    requires u <= n <= |r.txns| && forall j: nat | u <= j < n :: !Sets(r.txns[j], k, i)
    ensures WordAfter(r, n, k, i) == WordAfter(r, u, k, i)
    decreases n - u
  {
    hide Sets, TxnWord;
    if u < n {
      Kept(r, u, n - 1, k, i);
      NotSet(r.txns[n - 1], r.values(n - 1), r.width, (k': Key, i': nat) => WordAfter(r, n - 1, k', i'), k, i);
    }
  }

  // ------------------------------------------------------------------ stock

  /** All orders for a stock row among the first u transactions, in batch order. */
  function Orders(r: WordRun, stock: nat, u: nat): seq<uint32>
    requires u <= |r.txns|
  {
    if u == 0 then []
    else
      var t := r.txns[u - 1];
      Orders(r, stock, u - 1)
      + (if t.NewOrder? then Ordered(t.items, r.values(u - 1).quantities, stock, |t.items|) else [])
  }

  lemma QuantityConcat(q: nat, a: seq<uint32>, b: seq<uint32>)
    ensures Quantity(Quantity(q, a), b) == Quantity(q, a + b)
  {
    hide Stock.EpicSell;
    if a == [] {
      assert a + b == b;
    } else if b == [] {
      assert a + b == a;
    } else {
      Stock.EpicSellConcat(q % WORD, a, b);
    }
  }

  /** A stock quantity is what it was, with all orders for the row deducted in batch order. */
  lemma {:induction false} QuantityIs(r: WordRun, stock: nat, u: nat)
    requires u <= |r.txns|
    ensures WordAfter(r, u, Key(STOCK, stock), S_QUANTITY) ==
            Quantity(r.begin(Key(STOCK, stock), S_QUANTITY), Orders(r, stock, u))
    decreases u
  {
    hide Quantity, Ordered;
    if u > 0 {
      QuantityIs(r, stock, u - 1);
      var t, q := r.txns[u - 1], r.begin(Key(STOCK, stock), S_QUANTITY);
      if t.NewOrder? {
        QuantityConcat(q, Orders(r, stock, u - 1), Ordered(t.items, r.values(u - 1).quantities, stock, |t.items|));
      } else {
        assert Orders(r, stock, u) == Orders(r, stock, u - 1);
      }
    } else {
      NoOrders(r.begin(Key(STOCK, stock), S_QUANTITY));
    }
  }

  lemma NoOrders(q: nat)
    ensures Quantity(q, []) == q
  {}

  // ------------------------------------------------------------------ totals and counters

  /** Transaction t is a Payment to the row. */
  predicate PaysTo(t: Params, k: Key) {
    t.Payment? && k in {Key(WAREHOUSE, t.warehouse), Key(DISTRICT, t.district), Key(CUSTOMER, t.customer)}
  }

  /** What the first u transactions pay to a warehouse or district, or by a customer. */
  function PaymentSum(r: WordRun, k: Key, u: nat): int
    requires u <= |r.txns|
  {
    if u == 0 then 0
    else PaymentSum(r, k, u - 1) + if PaysTo(r.txns[u - 1], k) then r.values(u - 1).paymentAmount else 0
  }

  /** How many Payments that are. */
  function PaymentCount(r: WordRun, k: Key, u: nat): nat
    requires u <= |r.txns|
  {
    if u == 0 then 0 else PaymentCount(r, k, u - 1) + if PaysTo(r.txns[u - 1], k) then 1 else 0
  }

  /** How many orders the first u transactions deliver to a customer. */
  function DeliveryCount(r: WordRun, customer: nat, u: nat): nat
    requires u <= |r.txns|
  {
    if u == 0 then 0
    else
      var t := r.txns[u - 1];
      DeliveryCount(r, customer, u - 1) + if t.Delivery? then EntriesOf(t.entries, customer, |t.entries|) else 0
  }

  /** What a total or counter has changed by. */
  function Change(r: WordRun, k: Key, i: nat, u: nat): int
    requires u <= |r.txns|
  {
    if (k.table == WAREHOUSE && i == W_YTD) || (k.table == DISTRICT && i == D_YTD) then PaymentSum(r, k, u)
    else if k.table == CUSTOMER && i == C_BALANCE then -PaymentSum(r, k, u)
    else if k.table == CUSTOMER && i == C_YTD_PAYMENT then PaymentSum(r, k, u)
    else if k.table == CUSTOMER && i == C_PAYMENT_CNT then PaymentCount(r, k, u)
    else if k.table == CUSTOMER && i == C_DELIVERY_CNT then DeliveryCount(r, k.row, u)
    else 0
  }

  predicate IsTotal(k: Key, i: nat) {
    || (k.table == WAREHOUSE && i == W_YTD) || (k.table == DISTRICT && i == D_YTD)
    || (k.table == CUSTOMER && i in {C_BALANCE, C_YTD_PAYMENT, C_PAYMENT_CNT, C_DELIVERY_CNT})
  }

  /** Every total and counter is what it was and what it has changed by, modulo 2^32. */
  lemma {:induction false} TotalIs(r: WordRun, k: Key, i: nat, u: nat)
    requires u <= |r.txns| && IsTotal(k, i)
    ensures WordAfter(r, u, k, i) % WORD == (r.begin(k, i) + Change(r, k, i, u)) % WORD
    decreases u
  {
    hide Change, IsTotal, WordAfter;
    NoChange(r, k, i);
    if u > 0 {
      TotalIs(r, k, i, u - 1);
      TotalStep(r, k, i, u - 1);
      AddedModulo(WordAfter(r, u - 1, k, i), r.begin(k, i) + Change(r, k, i, u - 1),
        Change(r, k, i, u) - Change(r, k, i, u - 1));
    }
  }

  lemma AddedModulo(a: int, b: int, d: int)
    requires a % WORD == b % WORD
    ensures (a + d) % WORD == (b + d) % WORD
  {}

  lemma NoChange(r: WordRun, k: Key, i: nat)
    ensures Change(r, k, i, 0) == 0 && WordAfter(r, 0, k, i) == r.begin(k, i)
  {}

  /** What one transaction changes a total or counter by. */
  function TxnChange(t: Params, v: Values, k: Key, i: nat): int {
    match t
    case Payment(_, _, _) =>
      if !PaysTo(t, k) then 0
      else if k.table == CUSTOMER && i == C_BALANCE then 0 - (v.paymentAmount as int)
      else if k.table == CUSTOMER && i == C_PAYMENT_CNT then 1
      else if k.table == CUSTOMER && i == C_DELIVERY_CNT then 0
      else v.paymentAmount
    case Delivery(entries) =>
      if k.table == CUSTOMER && i == C_DELIVERY_CNT then EntriesOf(entries, k.row, |entries|) else 0
    case _ => 0
  }

  lemma ChangeStep(r: WordRun, k: Key, i: nat, u: nat)
    requires u < |r.txns| && IsTotal(k, i)
    ensures Change(r, k, i, u + 1) == Change(r, k, i, u) + TxnChange(r.txns[u], r.values(u), k, i)
  {
    hide EntriesOf;
  }

  lemma PaymentStep(t: Params, v: Values, before: Words, k: Key, i: nat)
    requires t.Payment? && IsTotal(k, i)
    ensures PaymentWord(t, v, before, k, i) % WORD == (before(k, i) + TxnChange(t, v, k, i)) % WORD
  {}

  lemma DeliveryStep(t: Params, v: Values, before: Words, k: Key, i: nat)
    requires t.Delivery? && IsTotal(k, i)
    ensures EntriesWord(t, v, before, |t.entries|, k, i) % WORD == (before(k, i) + TxnChange(t, v, k, i)) % WORD
  {
    hide HasDelivered, HasDeliveredLine;
  }

  lemma NewOrderStep(t: Params, v: Values, width: nat -> nat, before: Words, k: Key, i: nat)
    requires t.NewOrder? && IsTotal(k, i)
    ensures NewOrderWord(t, v, width, before, k, i) == before(k, i)
  {
    hide Ordered, LastUnder, Quantity;
  }

  lemma TotalStep(r: WordRun, k: Key, i: nat, u: nat)
    requires u < |r.txns| && IsTotal(k, i)
    ensures WordAfter(r, u + 1, k, i) % WORD ==
            (WordAfter(r, u, k, i) + (Change(r, k, i, u + 1) - Change(r, k, i, u))) % WORD
  {
    hide IsTotal, Change, PaymentWord, NewOrderWord, EntriesWord;
    var t, v, before := r.txns[u], r.values(u), (k': Key, i': nat) => WordAfter(r, u, k', i');
    ChangeStep(r, k, i, u);
    match t
    case NewOrder(_, _, _, _, _, _) => NewOrderStep(t, v, r.width, before, k, i);
    case Payment(_, _, _) => PaymentStep(t, v, before, k, i);
    case Delivery(_) => DeliveryStep(t, v, before, k, i);
    case _ =>
  }

  // ------------------------------------------------------------------ the last to write

  /** The word that transaction u leaves and no later one may change. */
  lemma {:induction false} LastSet(r: WordRun, u: nat, n: nat, k: Key, i: nat)
    requires u < n <= |r.txns| && forall j: nat | u < j < n :: !Sets(r.txns[j], k, i)
    ensures WordAfter(r, n, k, i) ==
            TxnWord(r.txns[u], r.values(u), r.width, (k': Key, i': nat) => WordAfter(r, u, k', i'), k, i)
  {
    hide Sets, TxnWord;
    Kept(r, u + 1, n, k, i);
  }

  /** A district has the next order id of its last NewOrder. */
  lemma {:induction false} NextOrderIdIs(r: WordRun, u: nat, n: nat)
    requires u < n <= |r.txns| && r.txns[u].NewOrder?
    requires forall j: nat | u < j < n && r.txns[j].NewOrder? :: r.txns[j].district != r.txns[u].district
    ensures WordAfter(r, n, Key(DISTRICT, r.txns[u].district), D_NEXT_O_ID) == r.values(u).nextOrderId
  {
    LastSet(r, u, n, Key(DISTRICT, r.txns[u].district), D_NEXT_O_ID);
    hide ItemsWord;
  }

  /** An order has the carrier of its last Delivery, unless it has been placed again since. */
  lemma {:induction false} CarrierIs(r: WordRun, u: nat, n: nat, e: nat)
    requires u < n <= |r.txns| && r.txns[u].Delivery? && e < |r.txns[u].entries|
    requires forall j: nat | u < j < n :: !Sets(r.txns[j], Key(ORDER, r.txns[u].entries[e].order), O_CARRIER_ID)
    ensures WordAfter(r, n, Key(ORDER, r.txns[u].entries[e].order), O_CARRIER_ID) == r.values(u).carrierId
  {
    hide Sets;
    LastSet(r, u, n, Key(ORDER, r.txns[u].entries[e].order), O_CARRIER_ID);
    assert HasDelivered(r.txns[u].entries, r.txns[u].entries[e].order, |r.txns[u].entries|);
  }

  /** An order line has the date of its last Delivery, unless it has been ordered again since. */
  lemma {:induction false} DeliveryDateIs(r: WordRun, u: nat, n: nat, e: nat, line: nat)
    requires u < n <= |r.txns| && r.txns[u].Delivery? && e < |r.txns[u].entries|
    requires line in r.txns[u].entries[e].orderLines
    requires forall j: nat | u < j < n :: !Sets(r.txns[j], Key(ORDER_LINE, line), OL_DELIVERY_D)
    ensures WordAfter(r, n, Key(ORDER_LINE, line), OL_DELIVERY_D) == r.values(u).deliveryD
  {
    hide Sets;
    LastSet(r, u, n, Key(ORDER_LINE, line), OL_DELIVERY_D);
    assert HasDeliveredLine(r.txns[u].entries, line, |r.txns[u].entries|);
  }

  /** An order line has what was ordered under it last: the item's row, the quantity, which is also
      the amount, and the row of the ordering warehouse. */
  lemma {:induction false} LineIs(r: WordRun, u: nat, n: nat, l: nat)
    requires u < n <= |r.txns| && r.txns[u].NewOrder? && l < |r.txns[u].items|
    requires forall m: nat | l < m < |r.txns[u].items| :: r.txns[u].items[m].orderLine != r.txns[u].items[l].orderLine
    requires forall j: nat | u < j < n && r.txns[j].NewOrder? ::
               forall m: nat | m < |r.txns[j].items| :: r.txns[j].items[m].orderLine != r.txns[u].items[l].orderLine
    ensures var k := Key(ORDER_LINE, r.txns[u].items[l].orderLine);
            && WordAfter(r, n, k, OL_I_ID) == r.txns[u].items[l].item
            && WordAfter(r, n, k, OL_QUANTITY) == r.values(u).quantities(l)
            && WordAfter(r, n, k, OL_AMOUNT) == r.values(u).quantities(l)
            && WordAfter(r, n, k, OL_SUPPLY_W_ID) == r.txns[u].warehouse
  {
    var k := Key(ORDER_LINE, r.txns[u].items[l].orderLine);
    assert LastUnder(r.txns[u].items, k.row, |r.txns[u].items|) == l;
    hide LastUnder, Quantity, Copied, WordAfter;
    LastSet(r, u, n, k, OL_I_ID);
    LastSet(r, u, n, k, OL_QUANTITY);
    LastSet(r, u, n, k, OL_AMOUNT);
    LastSet(r, u, n, k, OL_SUPPLY_W_ID);
  }

  /** The rows of an order and its new-order entry have the words that the customer's row had. */
  lemma {:induction false} OrderRowIs(r: WordRun, u: nat, i: nat)
    requires u < |r.txns| && r.txns[u].NewOrder?
    ensures var w := if i < r.width(CUSTOMER) then WordAfter(r, u, Key(CUSTOMER, r.txns[u].customer), i) else 0;
            && WordAfter(r, u + 1, Key(ORDER, r.txns[u].order), i) == w
            && WordAfter(r, u + 1, Key(NEW_ORDER, r.txns[u].newOrder), i) == w
  {
    hide ItemsWord;
  }

  // ------------------------------------------------------------------ one batch after another

  /** all is r and then s. */
  ghost predicate Follows(r: WordRun, s: WordRun, all: WordRun) {
    && all.txns == r.txns + s.txns && all.width == r.width == s.width
    && (forall j: nat | j < |r.txns| :: all.values(j) == r.values(j))
    && (forall j: nat | j < |s.txns| :: all.values(|r.txns| + j) == s.values(j))
    && (forall k: Key, i: nat | i < r.width(k.table) ::
          all.begin(k, i) == r.begin(k, i) && s.begin(k, i) == WordAfter(r, |r.txns|, k, i))
  }

  lemma {:induction false} FirstPart(r: WordRun, s: WordRun, all: WordRun, u: nat, k: Key, i: nat)
    requires Follows(r, s, all) && u <= |r.txns| && i < r.width(k.table)
    ensures WordAfter(all, u, k, i) == WordAfter(r, u, k, i)
    decreases u
  {
    hide TxnWord;
    if u > 0 {
      var w := (k': Key, i': nat) => WordAfter(all, u - 1, k', i');
      var w' := (k': Key, i': nat) => WordAfter(r, u - 1, k', i');
      forall k': Key, i': nat | i' < r.width(k'.table) ensures w(k', i') == w'(k', i') {
        FirstPart(r, s, all, u - 1, k', i');
      }
      SameWords(r.txns[u - 1], r.values(u - 1), r.width, w, w', k, i);
    }
  }

  lemma {:induction false} SecondPart(r: WordRun, s: WordRun, all: WordRun, u: nat, k: Key, i: nat)
    requires Follows(r, s, all) && u <= |s.txns| && i < r.width(k.table)
    ensures WordAfter(all, |r.txns| + u, k, i) == WordAfter(s, u, k, i)
    decreases u
  {
    hide TxnWord;
    if u == 0 {
      FirstPart(r, s, all, |r.txns|, k, i);
    } else {
      var n := |r.txns| + u - 1;
      var w, w' := (k': Key, i': nat) => WordAfter(all, n, k', i'), (k': Key, i': nat) => WordAfter(s, u - 1, k', i');
      forall k': Key, i': nat | i' < r.width(k'.table) ensures w(k', i') == w'(k', i') {
        SecondPart(r, s, all, u - 1, k', i');
      }
      SameWords(s.txns[u - 1], s.values(u - 1), r.width, w, w', k, i);
    }
  }
}
