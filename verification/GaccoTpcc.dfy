/** GAccO on TPC-C: what the submitter lists for NewOrder and Payment under each locking mode, and
    which locks the executor takes. */
module GaccoTpcc {
  import opened Execution
  import opened Locks
  import opened LockPrograms
  import opened TpccTables
  import Plan = GaccoPlanner

  datatype Txn =
    | NewOrder(warehouse: nat, district: nat, customer: nat, newOrder: nat, order: nat, items: seq<Item>)
    | Payment(warehouse: nat, district: nat, customer: nat)

  /** gacco_use_atomic and gacco_tpcc_stock_use_atomic. */
  datatype Mode = Mode(useAtomic: bool, stockUseAtomic: bool)

  // ------------------------------------------------------------------ submission

  /** What the first pass counts. */
  function NumOps(mode: Mode, txn: Txn, table: nat): nat {
    match txn
    case NewOrder(_, _, _, _, _, items) =>
      if mode.useAtomic then
        if table == STOCK && !mode.stockUseAtomic then |items| else 0
      else if table in {WAREHOUSE, DISTRICT, CUSTOMER, ORDER, NEW_ORDER} then 1
      else if table in {ORDER_LINE, ITEM, STOCK} then |items|
      else 0
    case Payment(_, _, _) =>
      if !mode.useAtomic && table in {WAREHOUSE, DISTRICT, CUSTOMER} then 1 else 0
  }

  function ItemRow(item: Item, table: nat): nat {
    if table == ORDER_LINE then item.orderLine else if table == ITEM then item.item else item.stock
  }

  function ItemRows(items: seq<Item>, table: nat, n: nat): (rows: seq<nat>)
    requires n <= |items|
    ensures |rows| == n
  {
    if n == 0 then [] else ItemRows(items, table, n - 1) + [ItemRow(items[n - 1], table)]
  }

  /** The rows that the second pass lists for the transaction in a table. */
  function Listed(mode: Mode, txn: Txn, table: nat): seq<nat> {
    match txn
    case NewOrder(warehouse, district, customer, newOrder, order, items) =>
      if !mode.useAtomic then
        if table == WAREHOUSE then [warehouse]
        else if table == DISTRICT then [district]
        else if table == CUSTOMER then [customer]
        else if table == ORDER then [order]
        else if table == NEW_ORDER then [newOrder]
        else if table == ORDER_LINE || table == ITEM || table == STOCK then ItemRows(items, table, |items|)
        else []
      else if !mode.stockUseAtomic && table == STOCK then ItemRows(items, STOCK, |items|)
      else []
    case Payment(warehouse, district, customer) =>
      if mode.useAtomic then []
      else if table == WAREHOUSE then [warehouse]
      else if table == DISTRICT then [district]
      else if table == CUSTOMER then [customer]
      else []
  }

  /** Both passes agree, under every setting. */
  lemma {:induction false} CountsWhatIsListed(mode: Mode, txn: Txn, table: nat)
    ensures NumOps(mode, txn, table) == |Listed(mode, txn, table)|
  {}

  function LockOps(rows: seq<nat>, name: nat): (ops: seq<Plan.LockOp>)
    ensures |ops| == |rows| && forall i | 0 <= i < |ops| :: ops[i] == Plan.LockOp(rows[i], name)
  {
    seq(|rows|, i requires 0 <= i < |rows| => Plan.LockOp(rows[i], name))
  }

  /** What table's planner gets. */
  function Submitted(mode: Mode, txns: seq<Txn>, table: nat, n: nat): seq<Plan.LockOp>
    requires n <= |txns|
  {
    if n == 0 then [] else Submitted(mode, txns, table, n - 1) + LockOps(Listed(mode, txns[n - 1], table), n - 1)
  }

  // ------------------------------------------------------------------ execution

  function W(table: nat, row: nat, u: nat): Act { Act(Work, Key(table, row), u) }
  function A(table: nat, row: nat, u: nat): Act { Act(Acquire, Key(table, row), u) }
  function R(table: nat, row: nat, u: nat): Act { Act(Release, Key(table, row), u) }

  function Section(table: nat, row: nat, u: nat): seq<Act> {
    [A(table, row, u), W(table, row, u), R(table, row, u)]
  }

  /** One item of a NewOrder: the order line's and the stock row's locks overlap. */
  function ItemActs(mode: Mode, item: Item, u: nat): seq<Act> {
    if mode.useAtomic then
      if mode.stockUseAtomic then [] else Section(STOCK, item.stock, u)
    else
      [A(ORDER_LINE, item.orderLine, u), W(ORDER_LINE, item.orderLine, u),
       A(STOCK, item.stock, u), W(STOCK, item.stock, u),
       R(ORDER_LINE, item.orderLine, u), R(STOCK, item.stock, u)]
      + Section(ITEM, item.item, u)
  }

  function ItemsActs(mode: Mode, items: seq<Item>, u: nat, n: nat): seq<Act>
    requires n <= |items|
  {
    if n == 0 then [] else ItemsActs(mode, items, u, n - 1) + ItemActs(mode, items[n - 1], u)
  }

  function OrderActs(newOrder: nat, order: nat, u: nat): seq<Act> {
    [A(NEW_ORDER, newOrder, u), A(ORDER, order, u), W(NEW_ORDER, newOrder, u), W(ORDER, order, u),
     R(NEW_ORDER, newOrder, u), R(ORDER, order, u)]
  }

  /** A NewOrder's locks before its items. */
  function HeaderActs(warehouse: nat, district: nat, customer: nat, newOrder: nat, order: nat, u: nat): seq<Act> {
    Section(WAREHOUSE, warehouse, u) + Section(DISTRICT, district, u) + Section(CUSTOMER, customer, u)
    + OrderActs(newOrder, order, u)
  }

  /** Payment holds all three of its locks at once. */
  function PaymentActs(warehouse: nat, district: nat, customer: nat, u: nat): seq<Act> {
    [A(WAREHOUSE, warehouse, u), W(WAREHOUSE, warehouse, u), A(DISTRICT, district, u), W(DISTRICT, district, u),
     A(CUSTOMER, customer, u), W(CUSTOMER, customer, u),
     R(WAREHOUSE, warehouse, u), R(DISTRICT, district, u), R(CUSTOMER, customer, u)]
  }

  function TxnActs(mode: Mode, txn: Txn, u: nat): seq<Act> {
    match txn
    case NewOrder(warehouse, district, customer, newOrder, order, items) =>
      (if mode.useAtomic then [] else HeaderActs(warehouse, district, customer, newOrder, order, u))
      + ItemsActs(mode, items, u, |items|)
    case Payment(warehouse, district, customer) =>
      if mode.useAtomic then [] else PaymentActs(warehouse, district, customer, u)
  }

  // ------------------------------------------------------------------ lock discipline

  /** What the protocol needs of a unit's acts, closed under concatenation: every lock is taken,
      used and given back properly, by the unit itself, and the locks of table t are taken for
      rows. */
  ghost predicate Takes(acts: seq<Act>, u: nat, t: nat, rows: seq<nat>) {
    && Disciplined(acts) && OwnActs(acts, u)
    && Rows(acts, t, |acts|) == rows
  }

  /** The rows of table t whose locks the first g acts take. */
  function Rows(acts: seq<Act>, t: nat, g: nat): seq<nat>
    requires g <= |acts|
  {
    if g == 0 then []
    else Rows(acts, t, g - 1) + (if acts[g - 1].kind == Acquire && acts[g - 1].key.table == t then [acts[g - 1].key.row]
      else [])
  }

  lemma {:induction false} RowsConcat(a: seq<Act>, b: seq<Act>, t: nat, g: nat)
    requires g <= |a| + |b|
    ensures Rows(a + b, t, g) == if g <= |a| then Rows(a, t, g) else Rows(a, t, |a|) + Rows(b, t, g - |a|)
    decreases g
  {
    if g > 0 { RowsConcat(a, b, t, g - 1); }
  }

  lemma {:induction false} TakesConcat(a: seq<Act>, b: seq<Act>, u: nat, t: nat, r: seq<nat>, q: seq<nat>)
    requires Takes(a, u, t, r) && Takes(b, u, t, q)
    ensures Takes(a + b, u, t, r + q)
  {
    hide Disciplined, Rows;
    DisciplinedConcat(a, b);
    assert OwnActs(a + b, u);
    hide OwnActs;
    AllRowsConcat(a, b, t);
  }

  lemma {:induction false} AllRowsConcat(a: seq<Act>, b: seq<Act>, t: nat)
    ensures Rows(a + b, t, |a + b|) == Rows(a, t, |a|) + Rows(b, t, |b|)
  {
    RowsConcat(a, b, t, |a + b|);
  }

  function RowIf(table: nat, t: nat, row: nat): seq<nat> { if table == t then [row] else [] }

  lemma {:induction false} SectionTakes(table: nat, row: nat, u: nat, t: nat)
    ensures Takes(Section(table, row, u), u, t, RowIf(table, t, row))
  {
    var s, k := Section(table, row, u), Key(table, row);
    assert HeldAfter(s, 1) == {k};
    assert HeldAfter(s, 2) == {k};
    assert HeldAfter(s, 3) == {};
    assert Rows(s, t, 1) == RowIf(table, t, row);
    assert Rows(s, t, 2) == RowIf(table, t, row);
  }

  lemma {:induction false} OrderTakes(newOrder: nat, order: nat, u: nat, t: nat)
    ensures Takes(OrderActs(newOrder, order, u), u, t, RowIf(NEW_ORDER, t, newOrder) + RowIf(ORDER, t, order))
  {
    var s, k, m := OrderActs(newOrder, order, u), Key(NEW_ORDER, newOrder), Key(ORDER, order);
    assert HeldAfter(s, 1) == {k};
    assert HeldAfter(s, 2) == {k, m};
    assert HeldAfter(s, 3) == {k, m};
    assert HeldAfter(s, 4) == {k, m};
    assert HeldAfter(s, 5) == {m};
    assert HeldAfter(s, 6) == {};
    assert Rows(s, t, 1) == RowIf(NEW_ORDER, t, newOrder);
    assert Rows(s, t, 3) == RowIf(NEW_ORDER, t, newOrder) + RowIf(ORDER, t, order);
    assert Rows(s, t, 5) == RowIf(NEW_ORDER, t, newOrder) + RowIf(ORDER, t, order);
  }

  lemma {:induction false} PaymentTakes(warehouse: nat, district: nat, customer: nat, u: nat, t: nat)
    ensures Takes(PaymentActs(warehouse, district, customer, u), u, t,
                  RowIf(WAREHOUSE, t, warehouse) + RowIf(DISTRICT, t, district) + RowIf(CUSTOMER, t, customer))
  {
    var s := PaymentActs(warehouse, district, customer, u);
    var w, d, c := Key(WAREHOUSE, warehouse), Key(DISTRICT, district), Key(CUSTOMER, customer);
    assert HeldAfter(s, 1) == {w};
    assert HeldAfter(s, 2) == {w};
    assert HeldAfter(s, 3) == {w, d};
    assert HeldAfter(s, 4) == {w, d};
    assert HeldAfter(s, 5) == {w, d, c};
    assert HeldAfter(s, 6) == {w, d, c};
    assert HeldAfter(s, 7) == {d, c};
    assert HeldAfter(s, 8) == {c};
    assert HeldAfter(s, 9) == {};
    assert Rows(s, t, 1) == RowIf(WAREHOUSE, t, warehouse);
    assert Rows(s, t, 2) == RowIf(WAREHOUSE, t, warehouse);
    assert Rows(s, t, 4) == RowIf(WAREHOUSE, t, warehouse) + RowIf(DISTRICT, t, district);
    assert Rows(s, t, 6) == RowIf(WAREHOUSE, t, warehouse) + RowIf(DISTRICT, t, district) + RowIf(CUSTOMER, t,
           customer);
    assert Rows(s, t, 8) == Rows(s, t, 6);
  }

  lemma {:induction false} PairTakes(item: Item, u: nat, t: nat)
    ensures Takes(ItemActs(Mode(false, false), item, u)[..6], u, t,
            RowIf(ORDER_LINE, t, item.orderLine) + RowIf(STOCK, t, item.stock))
  {
    var s := ItemActs(Mode(false, false), item, u)[..6];
    var k, m := Key(ORDER_LINE, item.orderLine), Key(STOCK, item.stock);
    assert HeldAfter(s, 1) == {k};
    assert HeldAfter(s, 2) == {k};
    assert HeldAfter(s, 3) == {k, m};
    assert HeldAfter(s, 4) == {k, m};
    assert HeldAfter(s, 5) == {m};
    assert HeldAfter(s, 6) == {};
    assert Rows(s, t, 1) == RowIf(ORDER_LINE, t, item.orderLine);
    assert Rows(s, t, 2) == RowIf(ORDER_LINE, t, item.orderLine);
    assert Rows(s, t, 4) == RowIf(ORDER_LINE, t, item.orderLine) + RowIf(STOCK, t, item.stock);
  }

  function ItemListed(mode: Mode, item: Item, t: nat): seq<nat> {
    if mode.useAtomic then
      if mode.stockUseAtomic then [] else RowIf(STOCK, t, item.stock)
    else RowIf(ORDER_LINE, t, item.orderLine) + RowIf(STOCK, t, item.stock) + RowIf(ITEM, t, item.item)
  }

  lemma {:induction false} NothingTakes(u: nat, t: nat)
    ensures Takes([], u, t, [])
  {}

  lemma {:induction false} ItemTakes(mode: Mode, item: Item, u: nat, t: nat)
    ensures Takes(ItemActs(mode, item, u), u, t, ItemListed(mode, item, t))
  {
    if mode.useAtomic {
      NothingTakes(u, t);
      SectionTakes(STOCK, item.stock, u, t);
    } else {
      PairTakes(item, u, t);
      SectionTakes(ITEM, item.item, u, t);
      var pair := ItemActs(Mode(false, false), item, u)[..6];
      assert ItemActs(mode, item, u) == pair + Section(ITEM, item.item, u);
      hide Takes;
      TakesConcat(pair, Section(ITEM, item.item, u), u, t,
                  RowIf(ORDER_LINE, t, item.orderLine) + RowIf(STOCK, t, item.stock), RowIf(ITEM, t, item.item));
    }
  }

  function ItemsListed(mode: Mode, items: seq<Item>, t: nat, n: nat): seq<nat>
    requires n <= |items|
  {
    if n == 0 then [] else ItemsListed(mode, items, t, n - 1) + ItemListed(mode, items[n - 1], t)
  }

  lemma {:induction false} ItemsTake(mode: Mode, items: seq<Item>, u: nat, t: nat, n: nat)
    requires n <= |items|
    ensures Takes(ItemsActs(mode, items, u, n), u, t, ItemsListed(mode, items, t, n))
    decreases n
  {
    hide Takes, ItemActs;
    if n == 0 {
      NothingTakes(u, t);
    } else {
      ItemsTake(mode, items, u, t, n - 1);
      ItemTakes(mode, items[n - 1], u, t);
      TakesConcat(ItemsActs(mode, items, u, n - 1), ItemActs(mode, items[n - 1], u), u, t,
                  ItemsListed(mode, items, t, n - 1), ItemListed(mode, items[n - 1], t));
    }
  }

  /** The tables whose rows an item lists. */
  predicate ListsItems(mode: Mode, t: nat) {
    if t == STOCK then !(mode.useAtomic && mode.stockUseAtomic) else (t == ORDER_LINE || t == ITEM) && !mode.useAtomic
  }

  lemma ItemListedIs(mode: Mode, item: Item, t: nat)
    ensures ItemListed(mode, item, t) == if ListsItems(mode, t) then [ItemRow(item, t)] else []
  {}

  lemma {:induction false} ItemsListedAre(mode: Mode, items: seq<Item>, t: nat, n: nat)
    requires n <= |items|
    ensures ItemsListed(mode, items, t, n) == if ListsItems(mode, t) then ItemRows(items, t, n) else []
    decreases n
  {
    hide ListsItems, ItemListed, ItemRow;
    if n > 0 {
      ItemsListedAre(mode, items, t, n - 1);
      ItemListedIs(mode, items[n - 1], t);
    }
  }

  /** The executor takes, in every table and under every setting, exactly the locks that the
      submitter listed, and gives all of them back. */
  lemma {:induction false} TxnTakesWhatIsListed(mode: Mode, txn: Txn, u: nat, t: nat)
    ensures Takes(TxnActs(mode, txn, u), u, t, Listed(mode, txn, t))
  {
    match txn
    case Payment(warehouse, district, customer) =>
      NothingTakes(u, t);
      PaymentTakes(warehouse, district, customer, u, t);
      hide Takes;
    case NewOrder(_, _, _, _, _, _) => NewOrderTakes(mode, txn, u, t);
  }

  /** The rows of a NewOrder besides those of its items. */
  function HeaderListed(txn: Txn, t: nat): seq<nat>
    requires txn.NewOrder?
  {
    RowIf(WAREHOUSE, t, txn.warehouse) + RowIf(DISTRICT, t, txn.district) + RowIf(CUSTOMER, t, txn.customer)
    + (RowIf(NEW_ORDER, t, txn.newOrder) + RowIf(ORDER, t, txn.order))
  }

  lemma {:induction false} NewOrderListed(mode: Mode, txn: Txn, t: nat)
    requires txn.NewOrder?
    ensures Listed(mode, txn, t) ==
            (if mode.useAtomic then [] else HeaderListed(txn, t)) + ItemsListed(mode, txn.items, t, |txn.items|)
  {
    hide ItemRows, ItemsListed;
    ItemsListedAre(mode, txn.items, t, |txn.items|);
  }

  lemma NewOrderActs(mode: Mode, txn: Txn, u: nat)
    requires txn.NewOrder?
    ensures TxnActs(mode, txn, u) ==
            (if mode.useAtomic then []
             else HeaderActs(txn.warehouse, txn.district, txn.customer, txn.newOrder, txn.order, u))
            + ItemsActs(mode, txn.items, u, |txn.items|)
  {
    hide HeaderActs, ItemsActs;
  }

  lemma {:induction false} NewOrderTakes(mode: Mode, txn: Txn, u: nat, t: nat)
    requires txn.NewOrder?
    ensures Takes(TxnActs(mode, txn, u), u, t, Listed(mode, txn, t))
  {
    hide Takes, TxnActs, Listed, ItemsActs, HeaderActs, ItemsListed, RowIf;
    NewOrderActs(mode, txn, u);
    NewOrderListed(mode, txn, t);
    ItemsTake(mode, txn.items, u, t, |txn.items|);
    var acts, listed := ItemsActs(mode, txn.items, u, |txn.items|), ItemsListed(mode, txn.items, t, |txn.items|);
    if mode.useAtomic {
      assert [] + acts == acts && [] + listed == listed;
    } else {
      HeaderTakes(txn.warehouse, txn.district, txn.customer, txn.newOrder, txn.order, u, t);
      TakesConcat(HeaderActs(txn.warehouse, txn.district, txn.customer, txn.newOrder, txn.order, u), acts, u, t,
                  HeaderListed(txn, t), listed);
    }
  }

  lemma {:induction false} HeaderTakes(warehouse: nat, district: nat, customer: nat, newOrder: nat, order: nat, u: nat,
                                       t: nat)
    ensures Takes(HeaderActs(warehouse, district, customer, newOrder, order, u), u, t,
                  RowIf(WAREHOUSE, t, warehouse) + RowIf(DISTRICT, t, district) + RowIf(CUSTOMER, t, customer)
                  + (RowIf(NEW_ORDER, t, newOrder) + RowIf(ORDER, t, order)))
  {
    hide Takes, Section, OrderActs, RowIf;
    var w, d, c := Section(WAREHOUSE, warehouse, u), Section(DISTRICT, district, u), Section(CUSTOMER, customer, u);
    SectionTakes(WAREHOUSE, warehouse, u, t);
    SectionTakes(DISTRICT, district, u, t);
    SectionTakes(CUSTOMER, customer, u, t);
    OrderTakes(newOrder, order, u, t);
    TakesConcat(w, d, u, t, RowIf(WAREHOUSE, t, warehouse), RowIf(DISTRICT, t, district));
    TakesConcat(w + d, c, u, t, RowIf(WAREHOUSE, t, warehouse) + RowIf(DISTRICT, t, district),
      RowIf(CUSTOMER, t, customer));
    TakesConcat(w + d + c, OrderActs(newOrder, order, u), u, t,
                RowIf(WAREHOUSE, t, warehouse) + RowIf(DISTRICT, t, district) + RowIf(CUSTOMER, t, customer),
                RowIf(NEW_ORDER, t, newOrder) + RowIf(ORDER, t, order));
  }

  // ------------------------------------------------------------------ the batch

  function Units(mode: Mode, txns: seq<Txn>): (units: seq<seq<Act>>)
    ensures |units| == |txns| && forall u: nat | u < |units| :: units[u] == TxnActs(mode, txns[u], u)
  {
    seq(|txns|, u requires 0 <= u < |txns| => TxnActs(mode, txns[u], u))
  }

  /** Transactions go by their own ids. */
  function TxnIds(n: nat): (token: seq<nat>)
    ensures |token| == n && forall u: nat | u < n :: token[u] == u
  {
    seq(n, u requires 0 <= u < n => u)
  }

  function TpccProgram(mode: Mode, txns: seq<Txn>, work: (nat, Local, Row) -> (Row, Local)): Program {
    ProgramOf(Units(mode, txns), TxnIds(|txns|), work)
  }

  lemma {:induction false} TpccUnitsOk(mode: Mode, txns: seq<Txn>)
    ensures UnitsOk(Units(mode, txns))
  {
    forall u: nat | u < |txns| ensures Disciplined(Units(mode, txns)[u]) && OwnActs(Units(mode, txns)[u], u) {
      TxnTakesWhatIsListed(mode, txns[u], u, 0);
      hide Disciplined, OwnActs, TxnActs;
    }
  }

  /** A unit's names are its rows. */
  lemma {:induction false} NamesAreRows(acts: seq<Act>, token: seq<nat>, u: nat, t: nat, g: nat)
    requires Named(acts, token) && OwnActs(acts, u) && u < |token| && g <= |acts|
    ensures Names(acts, token, t, g) == LockOps(Rows(acts, t, g), token[u])
    decreases g
  {
    if g > 0 {
      NamesAreRows(acts, token, u, t, g - 1);
      assert acts[g - 1] in acts;
    }
  }

  lemma {:induction false} NamesOfTxn(mode: Mode, txns: seq<Txn>, t: nat, u: nat)
    requires u < |txns|
    ensures NamesMatch(TxnActs(mode, txns[u], u), TxnIds(|txns|), t, LockOps(Listed(mode, txns[u], t), u))
  {
    var acts := TxnActs(mode, txns[u], u);
    TxnTakesWhatIsListed(mode, txns[u], u, t);
    hide TxnActs, Listed, Disciplined;
    NamesAreRows(acts, TxnIds(|txns|), u, t, |acts|);
  }

  ghost predicate NamesUpto(mode: Mode, txns: seq<Txn>, t: nat, n: nat)
    requires n <= |txns|
  {
    NamesMatch(Flatten(Units(mode, txns), n), TxnIds(|txns|), t, Submitted(mode, txns, t, n))
  }

  lemma {:induction false} NamesOfOneMore(mode: Mode, txns: seq<Txn>, t: nat, n: nat)
    requires n < |txns| && NamesUpto(mode, txns, t, n)
    ensures NamesUpto(mode, txns, t, n + 1)
  {
    hide NamesMatch, TxnActs, Listed;
    var acts, ops := Flatten(Units(mode, txns), n), Submitted(mode, txns, t, n);
    assert Flatten(Units(mode, txns), n + 1) == acts + TxnActs(mode, txns[n], n);
    assert Submitted(mode, txns, t, n + 1) == ops + LockOps(Listed(mode, txns[n], t), n);
    hide Flatten, Submitted, Units, TxnIds;
    NamesOfTxn(mode, txns, t, n);
    NamesMatchConcat(acts, TxnActs(mode, txns[n], n), TxnIds(|txns|), t, ops, LockOps(Listed(mode, txns[n], t), n));
  }

  lemma {:induction false} AllNames(mode: Mode, txns: seq<Txn>, t: nat, n: nat)
    requires n <= |txns|
    ensures NamesUpto(mode, txns, t, n)
    decreases n
  {
    hide NamesUpto;
    if n > 0 {
      AllNames(mode, txns, t, n - 1);
      NamesOfOneMore(mode, txns, t, n - 1);
    } else {
      NoNamesYet(mode, txns, t);
    }
  }

  lemma {:induction false} NoNamesYet(mode: Mode, txns: seq<Txn>, t: nat)
    ensures NamesUpto(mode, txns, t, 0)
  {
    NoNames(Units(mode, txns), TxnIds(|txns|), t);
    hide NamesMatch, Flatten, Units, TxnIds;
  }

  lemma NoNames(units: seq<seq<Act>>, token: seq<nat>, t: nat)
    ensures NamesMatch(Flatten(units, 0), token, t, [])
  {}

  /** Each table's planner is given exactly the names under which its locks will be taken. */
  lemma {:induction false} SubmittedAreNames(mode: Mode, txns: seq<Txn>, t: nat, n: nat)
    requires n <= |txns|
    ensures NamesMatch(Flatten(Units(mode, txns), n), TxnIds(|txns|), t, Submitted(mode, txns, t, n))
  {
    hide NamesMatch, Flatten, Submitted, Units, TxnIds;
    AllNames(mode, txns, t, n);
  }

  /** With the lists that the planners build from the submitted names, the protocol's
      requirements are met by every batch under every setting: mutual exclusion, transaction
      order, serial results and deadlock freedom follow. */
  lemma {:induction false} TpccLocksReady(mode: Mode, txns: seq<Txn>, work: (nat, Local, Row) -> (Row, Local), l: Lists)
    requires forall t: nat :: ListsOf(l, t, Submitted(mode, txns, t, |txns|))
    ensures LocksReady(TpccProgram(mode, txns, work), l, |txns|)
  {
    hide Flatten, ListsOf, Bracketed, WellFormedProgram, UnitsOk, Named;
    var p := TpccProgram(mode, txns, work);
    TpccUnitsOk(mode, txns);
    ProgramIsBracketed(Units(mode, txns), TxnIds(|txns|), work);
    forall t: nat ensures Named(p.acts, p.token) && ListsOf(l, t, Names(p.acts, p.token, t, |p.acts|)) {
      SubmittedAreNames(mode, txns, t, |txns|);
    }
    assert Named(p.acts, p.token) by { SubmittedAreNames(mode, txns, 0, |txns|); }
    NamesMakeLists(p, l);
  }
}
