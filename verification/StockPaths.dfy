/** In its atomic mode GAccO updates stock under locks or by compare-and-swap: whatever the
    interleavings, both ways end with the same quantities. */
module StockPaths {
  import opened Execution
  import opened GaccoTpcc
  import opened LockDevice
  import opened LockPrograms
  import opened LockSafety
  import opened Locks
  import opened Machine
  import opened Stock
  import opened StockCas
  import opened TpccTables

  // ------------------------------------------------------------------ what is to be sold

  /** Transaction u orders quantity order(u, i) of its i-th item. */
  function TxnUpdates(txn: Txn, u: nat, order: (nat, nat) -> uint32): seq<Update> {
    if txn.NewOrder? then ItemUpdates(txn.items, u, order) else []
  }

  function ItemUpdates(items: seq<Item>, u: nat, order: (nat, nat) -> uint32): (updates: seq<Update>)
    ensures |updates| == |items| && forall i: nat | i < |items| :: updates[i] == Update(items[i].stock, order(u, i))
  {
    seq(|items|, i requires 0 <= i < |items| => Update(items[i].stock, order(u, i)))
  }

  /** The compare-and-swaps of the batch. */
  function BatchUpdates(txns: seq<Txn>, order: (nat, nat) -> uint32): (updates: seq<seq<Update>>)
    ensures |updates| == |txns| && forall u: nat | u < |txns| :: updates[u] == TxnUpdates(txns[u], u, order)
  {
    seq(|txns|, u requires 0 <= u < |txns| => TxnUpdates(txns[u], u, order))
  }

  // ------------------------------------------------------------------ where it is sold

  /** The atomic mode with locks on stock rows, the only locks that are then taken. */
  const LOCKED: Mode := Mode(true, false)

  /** The act that updates the stock of item i, if the acts of the transaction's items begin at
      at. */
  function StockAct(items: seq<Item>, u: nat, at: nat, i: nat): nat
    requires i < |items|
  {
    at + |ItemsActs(LOCKED, items, u, i)| + 1
  }

  ghost predicate ItemOrdersMatch(items: seq<Item>, u: nat, at: nat, order: (nat, nat) -> uint32,
                                  quantity: nat -> nat) {
    forall i: nat | i < |items| :: quantity(StockAct(items, u, at, i)) == order(u, i)
  }

  /** The act that updates the stock of an item deducts that item's order. */
  ghost predicate OrdersMatch(txns: seq<Txn>, order: (nat, nat) -> uint32, quantity: nat -> nat) {
    forall u: nat | u < |txns| && txns[u].NewOrder? ::
      ItemOrdersMatch(txns[u].items, u, |Flatten(Units(LOCKED, txns), u)|, order, quantity)
  }

  /** The orders for row k among the first n of the acts, which begin at at. */
  function OrdersIn(acts: seq<Act>, k: Key, at: nat, quantity: nat -> nat, n: nat): (orders: seq<nat>)
    requires n <= |acts|
  {
    if n == 0 then []
    else OrdersIn(acts, k, at, quantity, n - 1)
         + (if acts[n - 1].kind == Work && acts[n - 1].key == k then [quantity(at + n - 1)] else [])
  }

  lemma {:induction false} OrdersInConcat(a: seq<Act>, b: seq<Act>, k: Key, at: nat, quantity: nat -> nat, n: nat)
    requires n <= |a| + |b|
    ensures OrdersIn(a + b, k, at, quantity, n) ==
            if n <= |a| then OrdersIn(a, k, at, quantity, n)
            else OrdersIn(a, k, at, quantity, |a|) + OrdersIn(b, k, at + |a|, quantity, n - |a|)
    decreases n
  {
    if n > 0 {
      OrdersInConcat(a, b, k, at, quantity, n - 1);
      assert (a + b)[n - 1] == if n <= |a| then a[n - 1] else b[n - 1 - |a|];
    }
  }

  lemma {:induction false} AllOrdersInConcat(a: seq<Act>, b: seq<Act>, k: Key, at: nat, quantity: nat -> nat)
    ensures OrdersIn(a + b, k, at, quantity, |a + b|) ==
            OrdersIn(a, k, at, quantity, |a|) + OrdersIn(b, k, at + |a|, quantity, |b|)
  {
    OrdersInConcat(a, b, k, at, quantity, |a + b|);
  }

  lemma {:induction false} OrdersOfSegment(p: Program, acts: seq<Act>, k: Key, at: nat, quantity: nat -> nat, n: nat)
    requires n <= |acts| && at + |acts| <= |p.acts| && p.acts[at..at + |acts|] == acts
    ensures OrdersOn(p, k, at + n, quantity) == OrdersOn(p, k, at, quantity) + OrdersIn(acts, k, at, quantity, n)
    decreases n
  {
    if n > 0 {
      OrdersOfSegment(p, acts, k, at, quantity, n - 1);
      assert p.acts[at + n - 1] == acts[n - 1];
    }
  }

  /** Act g is the only work on row k, if it is on row k. */
  lemma {:induction false} OneWork(acts: seq<Act>, k: Key, at: nat, quantity: nat -> nat, g: nat, n: nat)
    requires g < |acts| && acts[g].kind == Work && n <= |acts|
    requires forall i: nat | i < |acts| && i != g && acts[i].kind == Work :: acts[i].key != k
    ensures OrdersIn(acts, k, at, quantity, n) == if g < n && acts[g].key == k then [quantity(at + g)] else []
    decreases n
  {
    if n > 0 { OneWork(acts, k, at, quantity, g, n - 1); }
  }

  lemma {:induction false} OrdersOfItem(item: Item, u: nat, r: nat, at: nat, quantity: nat -> nat)
    ensures var acts := ItemActs(LOCKED, item, u);
            OrdersIn(acts, Key(STOCK, r), at, quantity, |acts|) == if item.stock == r then [quantity(at + 1)] else []
  {
    hide OrdersIn;
    OneWork(ItemActs(LOCKED, item, u), Key(STOCK, r), at, quantity, 1, 3);
  }

  lemma {:induction false} ItemSold(items: seq<Item>, u: nat, r: nat, at: nat, order: (nat, nat) -> uint32,
                                    quantity: nat -> nat, n: nat)
    requires n < |items| && ItemOrdersMatch(items, u, at, order, quantity)
    ensures OrdersIn(ItemActs(LOCKED, items[n], u), Key(STOCK, r), at + |ItemsActs(LOCKED, items, u, n)|, quantity,
            |ItemActs(LOCKED, items[n], u)|) ==
            if items[n].stock == r then [order(u, n)] else []
  {
    hide OrdersIn, ItemActs, ItemsActs;
    OrdersOfItem(items[n], u, r, at + |ItemsActs(LOCKED, items, u, n)|, quantity);
    assert quantity(StockAct(items, u, at, n)) == order(u, n);
  }

  lemma OneMoreItem(items: seq<Item>, u: nat, n: nat)
    requires n < |items|
    ensures ItemsActs(LOCKED, items, u, n + 1) == ItemsActs(LOCKED, items, u, n) + ItemActs(LOCKED, items[n], u)
  {
    hide ItemActs;
  }

  lemma {:induction false} OneMoreUpdate(items: seq<Item>, u: nat, r: nat, order: (nat, nat) -> uint32, n: nat)
    requires n < |items|
    ensures OrdersFor(ItemUpdates(items, u, order), r, n + 1) ==
            OrdersFor(ItemUpdates(items, u, order), r, n) + (if items[n].stock == r then [order(u, n)] else [])
  {}

  ghost predicate ItemsUpto(items: seq<Item>, u: nat, r: nat, at: nat, order: (nat, nat) -> uint32,
                            quantity: nat -> nat, n: nat)
    requires n <= |items|
  {
    OrdersIn(ItemsActs(LOCKED, items, u, n), Key(STOCK, r), at, quantity, |ItemsActs(LOCKED, items, u, n)|) ==
    OrdersFor(ItemUpdates(items, u, order), r, n)
  }

  lemma {:induction false} OrdersOfOneMoreItem(items: seq<Item>, u: nat, r: nat, at: nat,
                                               order: (nat, nat) -> uint32, quantity: nat -> nat, n: nat)
    requires n < |items| && ItemOrdersMatch(items, u, at, order, quantity)
    requires ItemsUpto(items, u, r, at, order, quantity, n)
    ensures ItemsUpto(items, u, r, at, order, quantity, n + 1)
  {
    hide OrdersIn, ItemActs, OrdersFor, ItemUpdates, ItemOrdersMatch, ItemsActs;
    OneMoreItem(items, u, n);
    ItemSold(items, u, r, at, order, quantity, n);
    AllOrdersInConcat(ItemsActs(LOCKED, items, u, n), ItemActs(LOCKED, items[n], u), Key(STOCK, r), at, quantity);
    OneMoreUpdate(items, u, r, order, n);
  }

  lemma NoItemYet(items: seq<Item>, u: nat, r: nat, at: nat, order: (nat, nat) -> uint32, quantity: nat -> nat)
    ensures ItemsUpto(items, u, r, at, order, quantity, 0)
  {
    assert ItemsActs(LOCKED, items, u, 0) == [];
  }

  lemma {:induction false} OrdersOfItems(items: seq<Item>, u: nat, r: nat, at: nat, order: (nat, nat) -> uint32,
                                         quantity: nat -> nat, n: nat)
    requires n <= |items| && ItemOrdersMatch(items, u, at, order, quantity)
    ensures ItemsUpto(items, u, r, at, order, quantity, n)
    decreases n
  {
    hide ItemsUpto, ItemOrdersMatch;
    if n > 0 {
      OrdersOfItems(items, u, r, at, order, quantity, n - 1);
      OrdersOfOneMoreItem(items, u, r, at, order, quantity, n - 1);
    } else {
      NoItemYet(items, u, r, at, order, quantity);
    }
  }

  /** A transaction sells under locks what it sells by compare-and-swap, in the same order. */
  lemma {:induction false} OrdersOfTxn(txn: Txn, u: nat, r: nat, at: nat, order: (nat, nat) -> uint32,
                                       quantity: nat -> nat)
    requires txn.NewOrder? ==> ItemOrdersMatch(txn.items, u, at, order, quantity)
    ensures OrdersIn(TxnActs(LOCKED, txn, u), Key(STOCK, r), at, quantity, |TxnActs(LOCKED, txn, u)|) ==
            OrdersFor(TxnUpdates(txn, u, order), r, |TxnUpdates(txn, u, order)|)
  {
    if txn.NewOrder? {
      assert TxnActs(LOCKED, txn, u) == ItemsActs(LOCKED, txn.items, u, |txn.items|);
      hide TxnActs, ItemsActs, OrdersIn, OrdersFor, ItemUpdates;
      OrdersOfItems(txn.items, u, r, at, order, quantity, |txn.items|);
    }
  }

  ghost predicate OrdersUpto(txns: seq<Txn>, work: (nat, Local, Row) -> (Row, Local), r: nat,
                             order: (nat, nat) -> uint32, quantity: nat -> nat, u: nat)
    requires u <= |txns|
  {
    && |Flatten(Units(LOCKED, txns), u)| <= |TpccProgram(LOCKED, txns, work).acts|
    && OrdersOn(TpccProgram(LOCKED, txns, work), Key(STOCK, r), |Flatten(Units(LOCKED, txns), u)|, quantity) ==
       AllOrders(BatchUpdates(txns, order), r, u)
  }

  lemma {:induction false} SegmentOfTxn(txns: seq<Txn>, work: (nat, Local, Row) -> (Row, Local), u: nat)
    requires u < |txns|
    ensures var p, at, acts := TpccProgram(LOCKED, txns, work), |Flatten(Units(LOCKED, txns), u)|,
            TxnActs(LOCKED, txns[u], u);
            && at + |acts| == |Flatten(Units(LOCKED, txns), u + 1)| <= |p.acts|
            && p.acts[at..at + |acts|] == acts
  {
    hide TxnActs;
    var units := Units(LOCKED, txns);
    assert Flatten(units, u + 1) == Flatten(units, u) + TxnActs(LOCKED, txns[u], u);
    FlattenPrefix(units, u + 1, |units|);
  }

  lemma {:induction false} OrdersOfOneMore(txns: seq<Txn>, work: (nat, Local, Row) -> (Row, Local), r: nat,
                                           order: (nat, nat) -> uint32, quantity: nat -> nat, u: nat)
    requires u < |txns| && OrdersMatch(txns, order, quantity) && OrdersUpto(txns, work, r, order, quantity, u)
    ensures OrdersUpto(txns, work, r, order, quantity, u + 1)
  {
    hide TpccProgram, ItemOrdersMatch, Flatten, TxnActs, TxnUpdates, OrdersIn, OrdersOn, OrdersFor;
    var p, updates := TpccProgram(LOCKED, txns, work), BatchUpdates(txns, order);
    var at, acts := |Flatten(Units(LOCKED, txns), u)|, TxnActs(LOCKED, txns[u], u);
    SegmentOfTxn(txns, work, u);
    OrdersOfSegment(p, acts, Key(STOCK, r), at, quantity, |acts|);
    OrdersOfTxn(txns[u], u, r, at, order, quantity);
    assert AllOrders(updates, r, u + 1) == AllOrders(updates, r, u) + OrdersFor(updates[u], r, |updates[u]|);
  }

  lemma {:induction false} OrdersOfBatch(txns: seq<Txn>, work: (nat, Local, Row) -> (Row, Local), r: nat,
                                         order: (nat, nat) -> uint32, quantity: nat -> nat, u: nat)
    requires u <= |txns| && OrdersMatch(txns, order, quantity)
    ensures OrdersUpto(txns, work, r, order, quantity, u)
    decreases u
  {
    hide OrdersUpto;
    if u > 0 {
      OrdersOfBatch(txns, work, r, order, quantity, u - 1);
      OrdersOfOneMore(txns, work, r, order, quantity, u - 1);
    } else {
      NoOrdersYet(txns, work, r, order, quantity);
    }
  }

  lemma NoOrdersYet(txns: seq<Txn>, work: (nat, Local, Row) -> (Row, Local), r: nat, order: (nat, nat) -> uint32,
                    quantity: nat -> nat)
    ensures OrdersUpto(txns, work, r, order, quantity, 0)
  {}

  // ------------------------------------------------------------------ the theorem

  ghost predicate AllDone(updates: seq<seq<Update>>, s: Shelf)
    requires |s.sellers| == |updates|
  {
    forall u: nat | u < |updates| :: !Unfinished(updates, s, u)
  }

  /** Agreement of the two stock paths: a finished run of the compare-and-swaps and a finished run
      under locks, each in an interleaving of its own, leave the same quantity in every row. */
  lemma {:induction false} StockPathsAgree(txns: seq<Txn>, order: (nat, nat) -> uint32, quantity: nat -> nat,
                                           work: (nat, Local, Row) -> (Row, Local), l: Lists, rows: map<Key, Row>,
                                           begin: seq<uint32>, swaps: seq<nat>, steps: seq<nat>, r: nat)
    requires OrdersMatch(txns, order, quantity) && forall t: nat :: ListsOf(l, t, Submitted(LOCKED, txns, t, |txns|))
    requires UpdatesOk(BatchUpdates(txns, order), |begin|) && forall i: nat | i < |begin| :: InStock(begin[i])
    requires r < |begin| && Key(STOCK, r) in rows && rows[Key(STOCK, r)] == [begin[r]]
    requires WorkSells(TpccProgram(LOCKED, txns, work), Key(STOCK, r), quantity)
    requires IsSchedule(swaps, |txns|)
             && AllDone(BatchUpdates(txns, order), CasRun(BatchUpdates(txns, order), begin, swaps))
    requires IsSchedule(steps, |txns|)
    requires LockFinished(TpccProgram(LOCKED, txns, work), LockRun(TpccProgram(LOCKED, txns, work), l, rows, steps))
    ensures |CasRun(BatchUpdates(txns, order), begin, swaps).quantity| == |begin|
    ensures LockRun(TpccProgram(LOCKED, txns, work), l, rows, steps).data.RowOf(Key(STOCK, r)) ==
            [CasRun(BatchUpdates(txns, order), begin, swaps).quantity[r]]
  {
    var p, updates, k := TpccProgram(LOCKED, txns, work), BatchUpdates(txns, order), Key(STOCK, r);
    CasRunKeepsInv(updates, begin, swaps);
    CasEndsSerially(updates, begin, CasRun(updates, begin, swaps), r);
    OrdersOfBatch(txns, work, r, order, quantity, |txns|);
    assert |Flatten(Units(LOCKED, txns), |txns|)| == |p.acts|;
    hide BatchUpdates, OrdersMatch, CasRun, UpdatesOk;
    LockedSells(p, rows, k, begin[r], quantity, |p.acts|);
    TpccLocksReady(LOCKED, txns, work, l);
    hide TpccProgram, ListsOf, WorkSells, SerialData;
    FinishedRow(p, l, rows, steps, k);
  }

  lemma {:induction false} FinishedRow(p: Program, l: Lists, rows: map<Key, Row>, schedule: seq<nat>, k: Key)
    requires LocksReady(p, l, |p.token|) && IsSchedule(schedule, |p.token|)
             && LockFinished(p, LockRun(p, l, rows, schedule))
    ensures LockRun(p, l, rows, schedule).data.RowOf(k) == SerialData(p, rows, |p.acts|).RowOf(k)
  {
    LockRunKeepsInv(p, l, rows, |p.token|, schedule);
    hide LockInv, LocksReady;
    MoveUntilFinished(p, l, rows, LockRun(p, l, rows, schedule));
  }
}
