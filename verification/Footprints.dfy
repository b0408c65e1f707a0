/** The rows whose locks a transaction takes in GAccO are the rows that it accesses in Epic. */
module Footprints {
  import opened TpccProgram
  import opened TpccTables
  import Epic = TpccSubmitter
  import Gacco = GaccoTpcc

  /** GAccO's transactions are two of Epic's five kinds. */
  function AsEpic(txn: Gacco.Txn): Epic.Params {
    match txn
    case NewOrder(w, d, c, n, o, items) => Epic.NewOrder(w, d, c, n, o, items)
    case Payment(w, d, c) => Epic.Payment(w, d, c)
  }

  ghost predicate Touches(t: Epic.Params, table: nat, row: nat) {
    exists p: nat :: p < |Epic.Program(t)| && Epic.Program(t)[p].table == table && Epic.Program(t)[p].row == row
  }

  lemma {:induction false} ItemRowsAre(items: seq<Item>, table: nat, n: nat, l: nat)
    requires l < n <= |items|
    ensures Gacco.ItemRows(items, table, n)[l] == Gacco.ItemRow(items[l], table)
  {
    if l < n - 1 { ItemRowsAre(items, table, n - 1, l); }
  }

  /** Entry l of what a NewOrder lists in a table of items is the row that it accesses for item l. */
  lemma {:induction false} ItemListedFor(txn: Gacco.Txn, mode: Gacco.Mode, l: nat)
    requires txn.NewOrder? && l < |txn.items| && !mode.useAtomic
    ensures var p := Epic.Program(AsEpic(txn));
            && 9 + 4 * l < |p|
            && |Gacco.Listed(mode, txn, ITEM)| == |Gacco.Listed(mode, txn, STOCK)|
               == |Gacco.Listed(mode, txn, ORDER_LINE)| == |txn.items|
            && p[6 + 4 * l].table == ITEM && Gacco.Listed(mode, txn, ITEM)[l] == p[6 + 4 * l].row
            && p[8 + 4 * l].table == STOCK && Gacco.Listed(mode, txn, STOCK)[l] == p[8 + 4 * l].row == p[7 + 4 * l].row
            && p[9 + 4 * l].table == ORDER_LINE && Gacco.Listed(mode, txn, ORDER_LINE)[l] == p[9 + 4 * l].row
  {
    hide Epic.Program, Gacco.ItemRows;
    NewOrderItem(AsEpic(txn), l);
    ItemRowsAre(txn.items, ITEM, |txn.items|, l);
    ItemRowsAre(txn.items, STOCK, |txn.items|, l);
    ItemRowsAre(txn.items, ORDER_LINE, |txn.items|, l);
  }

  lemma {:induction false} NewOrderListedTouched(mode: Gacco.Mode, txn: Gacco.Txn, table: nat, row: nat)
    requires txn.NewOrder? && !mode.useAtomic && row in Gacco.Listed(mode, txn, table)
    ensures Touches(AsEpic(txn), table, row)
  {
    hide Epic.Program, Gacco.ItemRows;
    NewOrderHead(AsEpic(txn));
    if table in {ITEM, STOCK, ORDER_LINE} {
      var l :| 0 <= l < |Gacco.Listed(mode, txn, table)| && Gacco.Listed(mode, txn, table)[l] == row;
      ItemListedFor(txn, mode, l);
    }
  }

  lemma {:induction false} NewOrderTouchedListed(mode: Gacco.Mode, txn: Gacco.Txn, p: nat)
    requires txn.NewOrder? && !mode.useAtomic && p < |Epic.Program(AsEpic(txn))|
    ensures Epic.Program(AsEpic(txn))[p].row in Gacco.Listed(mode, txn, Epic.Program(AsEpic(txn))[p].table)
  {
    hide Epic.Program, Gacco.ItemRows;
    NewOrderHead(AsEpic(txn));
    if p >= 6 {
      var l, r := (p - 6) / 4, (p - 6) % 4;
      assert p == 6 + 4 * l + r;
      NewOrderItem(AsEpic(txn), l);
      ItemListedFor(txn, mode, l);
    }
  }

  /** Under full locking a transaction lists, in every table, exactly the rows that Epic's executor would
      access for it. */
  lemma {:induction false} ListsWhatEpicTouches(mode: Gacco.Mode, txn: Gacco.Txn, table: nat, row: nat)
    requires !mode.useAtomic
    ensures row in Gacco.Listed(mode, txn, table) <==> Touches(AsEpic(txn), table, row)
  {
    hide Epic.Program, Gacco.ItemRows;
    if txn.Payment? {
      PaymentTouches(AsEpic(txn));
      hide Gacco.ItemRows;
      PaymentLists(mode, txn, table, row);
    } else {
      if row in Gacco.Listed(mode, txn, table) { NewOrderListedTouched(mode, txn, table, row); }
      if Touches(AsEpic(txn), table, row) {
        var p: nat :| p < |Epic.Program(AsEpic(txn))| && Epic.Program(AsEpic(txn))[p].table == table
                      && Epic.Program(AsEpic(txn))[p].row == row;
        NewOrderTouchedListed(mode, txn, p);
      }
    }
  }

  lemma {:induction false} PaymentLists(mode: Gacco.Mode, txn: Gacco.Txn, table: nat, row: nat)
    requires txn.Payment? && !mode.useAtomic
    ensures row in Gacco.Listed(mode, txn, table) <==> Touches(AsEpic(txn), table, row)
  {
    var p := Epic.Program(AsEpic(txn));
    PaymentTouches(AsEpic(txn));
    hide Epic.Program;
    if row in Gacco.Listed(mode, txn, table) {
      var i := if table == WAREHOUSE then 0 else if table == DISTRICT then 2 else 4;
      assert p[i].table == table && p[i].row == row;
    }
  }

  /** In the atomic mode it lists at most the stock rows of its items, and none if those are updated by
      compare-and-swap. */
  lemma {:induction false} AtomicLists(mode: Gacco.Mode, txn: Gacco.Txn, table: nat)
    requires mode.useAtomic
    ensures Gacco.Listed(mode, txn, table) ==
            if !mode.stockUseAtomic && table == STOCK then Gacco.Listed(Gacco.Mode(false, false), txn, STOCK) else []
  {
    hide Gacco.ItemRows;
  }
}
