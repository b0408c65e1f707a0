/** Epic on TPC-C: which accesses the submitter lists for each table, which accesses the executor
    makes, and in which words of its plan a transaction looks for the locations. */
module TpccSubmitter {
  import opened TpccTables

  datatype Delivered = Delivered(newOrder: nat, order: nat, customer: nat, orderLines: seq<nat>)

  datatype Params =
    | NewOrder(warehouse: nat, district: nat, customer: nat, newOrder: nat, order: nat, items: seq<Item>)
    | Payment(warehouse: nat, district: nat, customer: nat)
    | OrderStatus(customer: nat, order: nat, orderLines: seq<nat>)
    | Delivery(entries: seq<Delivered>)
    | StockLevel(stocks: seq<nat>)

  /** The fixed sizes of the parameter and plan structures. */
  ghost predicate Fits(t: Params) {
    match t
    case NewOrder(_, _, _, _, _, items) => |items| <= 15
    case Payment(_, _, _) => true
    case OrderStatus(_, _, orderLines) => |orderLines| <= 15
    case Delivery(entries) => |entries| == 10 && forall i | 0 <= i < 10 :: |entries[i].orderLines| <= 15
    case StockLevel(stocks) => |stocks| <= 300
  }

  /** One access: its table and row, and the word of the plan that holds its location. */
  datatype Touch = Touch(table: nat, row: nat, write: bool, word: nat)

  // ------------------------------------------------------------------ the plan layouts

  /** NewOrderExecPlan: six words, then four for each item. */
  const NO_WAREHOUSE: nat := 0
  const NO_DISTRICT: nat := 1
  const NO_DISTRICT_WRITE: nat := 2
  const NO_CUSTOMER: nat := 3
  const NO_NEW_ORDER: nat := 4
  const NO_ORDER: nat := 5
  function NoItem(i: nat): nat { 6 + 4 * i }
  function NoStockRead(i: nat): nat { 6 + 4 * i + 1 }
  function NoStockWrite(i: nat): nat { 6 + 4 * i + 2 }
  function NoOrderLine(i: nat): nat { 6 + 4 * i + 3 }

  /** DeliveryExecPlan: five arrays of ten words, two of ten times fifteen. */
  function DlNewOrderRead(i: nat): nat { i }
  function DlOrderRead(i: nat): nat { 10 + i }
  function DlOrderWrite(i: nat): nat { 20 + i }
  function DlCustomerRead(i: nat): nat { 30 + i }
  function DlCustomerWrite(i: nat): nat { 40 + i }
  function DlOrderLineRead(i: nat, j: nat): nat { 50 + 15 * i + j }
  function DlOrderLineWrite(i: nat, j: nat): nat { 200 + 15 * i + j }

  const PLAN_WORDS: nat := 350

  // ------------------------------------------------------------------ the executor

  function ItemProgram(item: Item, i: nat): seq<Touch> {
    [Touch(ITEM, item.item, false, NoItem(i)),
     Touch(STOCK, item.stock, false, NoStockRead(i)),
     Touch(STOCK, item.stock, true, NoStockWrite(i)),
     Touch(ORDER_LINE, item.orderLine, true, NoOrderLine(i))]
  }

  function ItemsProgram(items: seq<Item>, n: nat): seq<Touch>
    requires n <= |items|
  {
    if n == 0 then [] else ItemsProgram(items, n - 1) + ItemProgram(items[n - 1], n - 1)
  }

  /** The order lines of entry i: each is read and written. */
  function LinesProgram(lines: seq<nat>, i: nat, n: nat): seq<Touch>
    requires n <= |lines|
  {
    if n == 0 then []
    else LinesProgram(lines, i, n - 1)
         + [Touch(ORDER_LINE, lines[n - 1], false, DlOrderLineRead(i, n - 1)),
            Touch(ORDER_LINE, lines[n - 1], true, DlOrderLineWrite(i, n - 1))]
  }

  function EntryProgram(e: Delivered, i: nat): seq<Touch> {
    [Touch(NEW_ORDER, e.newOrder, false, DlNewOrderRead(i)),
     Touch(ORDER, e.order, false, DlOrderRead(i)), Touch(ORDER, e.order, true, DlOrderWrite(i))]
    + LinesProgram(e.orderLines, i, |e.orderLines|)
    + [Touch(CUSTOMER, e.customer, false, DlCustomerRead(i)), Touch(CUSTOMER, e.customer, true, DlCustomerWrite(i))]
  }

  function EntriesProgram(entries: seq<Delivered>, n: nat): seq<Touch>
    requires n <= |entries|
  {
    if n == 0 then [] else EntriesProgram(entries, n - 1) + EntryProgram(entries[n - 1], n - 1)
  }

  /** Reads of the rows in order, their locations in consecutive words. */
  function Reads(table: nat, rows: seq<nat>, first: nat, n: nat): seq<Touch>
    requires n <= |rows|
  {
    if n == 0 then [] else Reads(table, rows, first, n - 1) + [Touch(table, rows[n - 1], false, first + n - 1)]
  }

  /** The accesses that the executor makes, in order. */
  function Program(t: Params): seq<Touch> {
    match t
    case NewOrder(warehouse, district, customer, newOrder, order, items) =>
      [Touch(WAREHOUSE, warehouse, false, NO_WAREHOUSE),
       Touch(DISTRICT, district, false, NO_DISTRICT), Touch(DISTRICT, district, true, NO_DISTRICT_WRITE),
       Touch(CUSTOMER, customer, false, NO_CUSTOMER),
       Touch(ORDER, order, true, NO_ORDER), Touch(NEW_ORDER, newOrder, true, NO_NEW_ORDER)]
      + ItemsProgram(items, |items|)
    case Payment(warehouse, district, customer) =>
      [Touch(WAREHOUSE, warehouse, false, 0), Touch(WAREHOUSE, warehouse, true, 1),
       Touch(DISTRICT, district, false, 2), Touch(DISTRICT, district, true, 3),
       Touch(CUSTOMER, customer, false, 4), Touch(CUSTOMER, customer, true, 5)]
    case OrderStatus(customer, order, orderLines) =>
      [Touch(CUSTOMER, customer, false, 0), Touch(ORDER, order, false, 1)] + Reads(ORDER_LINE, orderLines, 2,
        |orderLines|)
    case Delivery(entries) => EntriesProgram(entries, |entries|)
    case StockLevel(stocks) => Reads(STOCK, stocks, 0, |stocks|)
  }

  // ------------------------------------------------------------------ the submitter

  function If(c: bool, ts: seq<Touch>): seq<Touch> { if c then ts else [] }

  function EmitItem(item: Item, i: nat, table: nat): seq<Touch> {
    if table == ORDER_LINE then [Touch(ORDER_LINE, item.orderLine, true, NoOrderLine(i))]
    else if table == ITEM then [Touch(ITEM, item.item, false, NoItem(i))]
    else if table == STOCK then
      [Touch(STOCK, item.stock, false, NoStockRead(i)), Touch(STOCK, item.stock, true, NoStockWrite(i))]
    else []
  }

  function EmitItems(items: seq<Item>, table: nat, n: nat): seq<Touch>
    requires n <= |items|
  {
    if n == 0 then [] else EmitItems(items, table, n - 1) + EmitItem(items[n - 1], n - 1, table)
  }

  function EmitEntry(e: Delivered, i: nat, table: nat): seq<Touch> {
    if table == CUSTOMER then
      [Touch(CUSTOMER, e.customer, false, DlCustomerRead(i)), Touch(CUSTOMER, e.customer, true, DlCustomerWrite(i))]
    else if table == NEW_ORDER then [Touch(NEW_ORDER, e.newOrder, false, DlNewOrderRead(i))]
    else if table == ORDER then
      [Touch(ORDER, e.order, false, DlOrderRead(i)), Touch(ORDER, e.order, true, DlOrderWrite(i))]
    else if table == ORDER_LINE then LinesProgram(e.orderLines, i, |e.orderLines|)
    else []
  }

  function EmitEntries(entries: seq<Delivered>, table: nat, n: nat): seq<Touch>
    requires n <= |entries|
  {
    if n == 0 then [] else EmitEntries(entries, table, n - 1) + EmitEntry(entries[n - 1], n - 1, table)
  }

  /** What the second pass writes for a transaction into table's buffer. */
  function Emits(t: Params, table: nat): seq<Touch> {
    match t
    case NewOrder(warehouse, district, customer, newOrder, order, items) =>
      if table == WAREHOUSE then [Touch(WAREHOUSE, warehouse, false, NO_WAREHOUSE)]
      else if table == DISTRICT then
        [Touch(DISTRICT, district, false, NO_DISTRICT), Touch(DISTRICT, district, true, NO_DISTRICT_WRITE)]
      else if table == CUSTOMER then [Touch(CUSTOMER, customer, false, NO_CUSTOMER)]
      else if table == ORDER then [Touch(ORDER, order, true, NO_ORDER)]
      else if table == NEW_ORDER then [Touch(NEW_ORDER, newOrder, true, NO_NEW_ORDER)]
      else EmitItems(items, table, |items|)
    case Payment(warehouse, district, customer) =>
      if table == WAREHOUSE then [Touch(WAREHOUSE, warehouse, false, 0), Touch(WAREHOUSE, warehouse, true, 1)]
      else if table == DISTRICT then [Touch(DISTRICT, district, false, 2), Touch(DISTRICT, district, true, 3)]
      else if table == CUSTOMER then [Touch(CUSTOMER, customer, false, 4), Touch(CUSTOMER, customer, true, 5)]
      else []
    case OrderStatus(customer, order, orderLines) =>
      if table == CUSTOMER then [Touch(CUSTOMER, customer, false, 0)]
      else if table == ORDER then [Touch(ORDER, order, false, 1)]
      else if table == ORDER_LINE then Reads(ORDER_LINE, orderLines, 2, |orderLines|)
      else []
    case Delivery(entries) => EmitEntries(entries, table, |entries|)
    case StockLevel(stocks) => if table == STOCK then Reads(STOCK, stocks, 0, |stocks|) else []
  }

  function TotalLines(entries: seq<Delivered>, n: nat): nat
    requires n <= |entries|
  {
    if n == 0 then 0 else TotalLines(entries, n - 1) + |entries[n - 1].orderLines|
  }

  /** What the first pass counts. */
  function NumOps(t: Params, table: nat): nat {
    match t
    case NewOrder(_, _, _, _, _, items) =>
      if table == DISTRICT then 2
      else if table in {WAREHOUSE, CUSTOMER, ORDER, NEW_ORDER} then 1
      else if table in {ORDER_LINE, ITEM} then |items|
      else if table == STOCK then |items| * 2
      else 0
    case Payment(_, _, _) => if table in {WAREHOUSE, DISTRICT, CUSTOMER} then 2 else 0
    case OrderStatus(_, _, orderLines) =>
      if table in {CUSTOMER, ORDER} then 1 else if table == ORDER_LINE then |orderLines| else 0
    case Delivery(entries) =>
      if table in {CUSTOMER, ORDER} then 20
      else if table == NEW_ORDER then 10
      else if table == ORDER_LINE then TotalLines(entries, |entries|) * 2
      else 0
    case StockLevel(stocks) => if table == STOCK then |stocks| else 0
  }

  lemma {:induction false} ReadsCount(table: nat, rows: seq<nat>, first: nat, n: nat)
    requires n <= |rows|
    ensures |Reads(table, rows, first, n)| == n
  {
    if n > 0 { ReadsCount(table, rows, first, n - 1); }
  }

  lemma {:induction false} LinesCount(lines: seq<nat>, i: nat, n: nat)
    requires n <= |lines|
    ensures |LinesProgram(lines, i, n)| == 2 * n
  {
    if n > 0 { LinesCount(lines, i, n - 1); }
  }

  lemma {:induction false} ItemsCount(items: seq<Item>, table: nat, n: nat)
    requires n <= |items|
    ensures |EmitItems(items, table, n)| == if table == STOCK then 2 * n else if table == ORDER_LINE
            || table == ITEM then n else 0
  {
    if n > 0 { ItemsCount(items, table, n - 1); }
  }

  lemma {:induction false} EntriesCount(entries: seq<Delivered>, table: nat, n: nat)
    requires n <= |entries|
    ensures |EmitEntries(entries, table, n)| ==
            if table == CUSTOMER || table == ORDER then 2 * n
            else if table == NEW_ORDER then n
            else if table == ORDER_LINE then 2 * TotalLines(entries, n)
            else 0
  {
    if n > 0 {
      EntriesCount(entries, table, n - 1);
      LinesCount(entries[n - 1].orderLines, n - 1, |entries[n - 1].orderLines|);
    }
  }

  /** The second pass writes, in every table, exactly as many accesses as the first pass counted. */
  lemma {:induction false} CountsWhatIsEmitted(t: Params, table: nat)
    requires Fits(t)
    ensures NumOps(t, table) == |Emits(t, table)|
  {
    match t
    case NewOrder(_, _, _, _, _, items) => ItemsCount(items, table, |items|);
    case Payment(_, _, _) =>
    case OrderStatus(_, _, orderLines) => ReadsCount(ORDER_LINE, orderLines, 2, |orderLines|);
    case Delivery(entries) => EntriesCount(entries, table, |entries|);
    case StockLevel(stocks) => ReadsCount(STOCK, stocks, 0, |stocks|);
  }

  // ------------------------------------------------------------------ table by table

  /** The accesses to one table, in order. */
  function Filter(ts: seq<Touch>, table: nat): seq<Touch> {
    if ts == [] then []
    else Filter(ts[..|ts| - 1], table) + If(ts[|ts| - 1].table == table, [ts[|ts| - 1]])
  }

  lemma {:induction false} FilterConcat(a: seq<Touch>, b: seq<Touch>, table: nat)
    ensures Filter(a + b, table) == Filter(a, table) + Filter(b, table)
    decreases |b|
  {
    if b == [] {
      assert a + b == a;
    } else {
      FilterConcat(a, b[..|b| - 1], table);
      assert (a + b)[..|a + b| - 1] == a + b[..|b| - 1];
    }
  }

  lemma FilterOne(t: Touch, table: nat)
    ensures Filter([t], table) == If(t.table == table, [t])
  {
    assert [t][..0] == [];
  }

  lemma {:induction false} FilterTwo(a: Touch, b: Touch, table: nat)
    ensures Filter([a, b], table) == If(a.table == table, [a]) + If(b.table == table, [b])
  {
    FilterOne(a, table);
    FilterOne(b, table);
    FilterConcat([a], [b], table);
    assert [a, b] == [a] + [b];
  }

  lemma {:induction false} FilterThree(a: Touch, b: Touch, c: Touch, table: nat)
    ensures Filter([a, b, c], table) == If(a.table == table, [a]) + If(b.table == table, [b]) + If(c.table ==
            table, [c])
  {
    FilterTwo(a, b, table);
    FilterOne(c, table);
    FilterConcat([a, b], [c], table);
    assert [a, b, c] == [a, b] + [c];
  }

  lemma {:induction false} FilterItem(item: Item, i: nat, table: nat)
    ensures Filter(ItemProgram(item, i), table) == EmitItem(item, i, table)
  {
    hide Filter;
    var p := ItemProgram(item, i);
    FilterTwo(p[0], p[1], table);
    FilterTwo(p[2], p[3], table);
    FilterConcat([p[0], p[1]], [p[2], p[3]], table);
    assert p == [p[0], p[1]] + [p[2], p[3]];
  }

  lemma {:induction false} FilterItems(items: seq<Item>, table: nat, n: nat)
    requires n <= |items|
    ensures Filter(ItemsProgram(items, n), table) == EmitItems(items, table, n)
    decreases n
  {
    hide Filter, ItemProgram, EmitItem;
    if n > 0 {
      FilterItems(items, table, n - 1);
      FilterItem(items[n - 1], n - 1, table);
      FilterConcat(ItemsProgram(items, n - 1), ItemProgram(items[n - 1], n - 1), table);
    } else {
      FilterNone(table);
    }
  }

  lemma {:induction false} FilterLines(lines: seq<nat>, i: nat, table: nat, n: nat)
    requires n <= |lines|
    ensures Filter(LinesProgram(lines, i, n), table) == If(table == ORDER_LINE, LinesProgram(lines, i, n))
    decreases n
  {
    hide Filter;
    if n > 0 {
      FilterLines(lines, i, table, n - 1);
      var a, b := Touch(ORDER_LINE, lines[n - 1], false, DlOrderLineRead(i, n - 1)),
        Touch(ORDER_LINE, lines[n - 1], true, DlOrderLineWrite(i, n - 1));
      FilterPair(a, b, table);
      FilterConcat(LinesProgram(lines, i, n - 1), [a, b], table);
      hide DlOrderLineRead, DlOrderLineWrite;
    } else {
      FilterNone(table);
    }
  }

  lemma FilterPair(a: Touch, b: Touch, table: nat)
    requires a.table == b.table
    ensures Filter([a, b], table) == If(table == a.table, [a, b])
  {
    hide Filter;
    FilterTwo(a, b, table);
  }

  lemma FilterNone(table: nat)
    ensures Filter([], table) == []
  {}

  lemma {:induction false} FilterReads(t: nat, rows: seq<nat>, first: nat, table: nat, n: nat)
    requires n <= |rows|
    ensures Filter(Reads(t, rows, first, n), table) == If(table == t, Reads(t, rows, first, n))
    decreases n
  {
    hide Filter;
    if n > 0 {
      var before, last := Reads(t, rows, first, n - 1), Touch(t, rows[n - 1], false, first + n - 1);
      FilterReads(t, rows, first, table, n - 1);
      FilterOne(last, table);
      FilterConcat(before, [last], table);
      assert Reads(t, rows, first, n) == before + [last];
      hide Reads;
    } else {
      FilterNone(table);
    }
  }

  lemma {:induction false} FilterEntry(e: Delivered, i: nat, table: nat)
    ensures Filter(EntryProgram(e, i), table) == EmitEntry(e, i, table)
  {
    var head := [Touch(NEW_ORDER, e.newOrder, false, DlNewOrderRead(i)),
                 Touch(ORDER, e.order, false, DlOrderRead(i)), Touch(ORDER, e.order, true, DlOrderWrite(i))];
    var lines := LinesProgram(e.orderLines, i, |e.orderLines|);
    var tail := [Touch(CUSTOMER, e.customer, false, DlCustomerRead(i)),
      Touch(CUSTOMER, e.customer, true, DlCustomerWrite(i))];
    assert EntryProgram(e, i) == head + lines + tail;
    FilterLines(e.orderLines, i, table, |e.orderLines|);
    hide Filter, LinesProgram, EntryProgram, If, EmitEntry;
    FilterThree(head[0], head[1], head[2], table);
    FilterTwo(tail[0], tail[1], table);
    FilterConcat(head, lines, table);
    FilterConcat(head + lines, tail, table);
    EntryParts(e, i, table);
  }

  lemma {:induction false} EntryParts(e: Delivered, i: nat, table: nat)
    ensures EmitEntry(e, i, table) ==
            If(NEW_ORDER == table, [Touch(NEW_ORDER, e.newOrder, false, DlNewOrderRead(i))])
            + If(ORDER == table, [Touch(ORDER, e.order, false, DlOrderRead(i))])
            + If(ORDER == table, [Touch(ORDER, e.order, true, DlOrderWrite(i))])
            + If(table == ORDER_LINE, LinesProgram(e.orderLines, i, |e.orderLines|))
            + (If(CUSTOMER == table, [Touch(CUSTOMER, e.customer, false, DlCustomerRead(i))])
               + If(CUSTOMER == table, [Touch(CUSTOMER, e.customer, true, DlCustomerWrite(i))]))
  {
    hide LinesProgram;
  }

  lemma {:induction false} FilterEntries(entries: seq<Delivered>, table: nat, n: nat)
    requires n <= |entries|
    ensures Filter(EntriesProgram(entries, n), table) == EmitEntries(entries, table, n)
    decreases n
  {
    hide Filter, EntryProgram, EmitEntry;
    if n > 0 {
      FilterEntries(entries, table, n - 1);
      FilterEntry(entries[n - 1], n - 1, table);
      FilterConcat(EntriesProgram(entries, n - 1), EntryProgram(entries[n - 1], n - 1), table);
    } else {
      FilterNone(table);
    }
  }

  lemma {:induction false} FilterSix(p: seq<Touch>, table: nat)
    requires |p| == 6
    ensures Filter(p, table) ==
            If(p[0].table == table, [p[0]]) + If(p[1].table == table, [p[1]]) + If(p[2].table == table, [p[2]])
            + (If(p[3].table == table, [p[3]]) + If(p[4].table == table, [p[4]]) + If(p[5].table == table, [p[5]]))
  {
    hide Filter, If;
    FilterThree(p[0], p[1], p[2], table);
    FilterThree(p[3], p[4], p[5], table);
    FilterConcat([p[0], p[1], p[2]], [p[3], p[4], p[5]], table);
    assert p == [p[0], p[1], p[2]] + [p[3], p[4], p[5]];
  }

  lemma {:induction false} FilterNewOrder(t: Params, table: nat)
    requires t.NewOrder?
    ensures Filter(Program(t), table) == Emits(t, table)
  {
    hide Filter, ItemsProgram, EmitItems, Program, Emits, If;
    NewOrderProgram(t);
    var p, items := Program(t)[..6], ItemsProgram(t.items, |t.items|);
    FilterSix(p, table);
    FilterItems(t.items, table, |t.items|);
    FilterConcat(p, items, table);
    NewOrderEmits(t, table);
  }

  lemma NewOrderProgram(t: Params)
    requires t.NewOrder?
    ensures |Program(t)| >= 6 && Program(t) == Program(t)[..6] + ItemsProgram(t.items, |t.items|)
  {
    hide ItemsProgram;
  }

  lemma {:induction false} NewOrderEmits(t: Params, table: nat)
    requires t.NewOrder? && |Program(t)| >= 6
    ensures var p := Program(t)[..6];
            Emits(t, table) ==
            If(p[0].table == table, [p[0]]) + If(p[1].table == table, [p[1]]) + If(p[2].table == table, [p[2]])
            + (If(p[3].table == table, [p[3]]) + If(p[4].table == table, [p[4]]) + If(p[5].table == table, [p[5]]))
            + EmitItems(t.items, table, |t.items|)
  {
    hide ItemsProgram, EmitItems;
    if table != ORDER_LINE && table != ITEM && table != STOCK { NoItemsElsewhere(t.items, table, |t.items|); }
  }

  lemma {:induction false} FilterOrderStatus(t: Params, table: nat)
    requires t.OrderStatus?
    ensures Filter(Program(t), table) == Emits(t, table)
  {
    hide Filter, Reads;
    var p, r := Program(t)[..2], Reads(ORDER_LINE, t.orderLines, 2, |t.orderLines|);
    assert Program(t) == p + r && p == [p[0], p[1]];
    FilterTwo(p[0], p[1], table);
    FilterReads(ORDER_LINE, t.orderLines, 2, table, |t.orderLines|);
    FilterConcat(p, r, table);
  }

  /** Plan completeness: in every table the executor makes exactly the accesses that were
      submitted, in the order of submission, and looks for each location in the word that the
      submission named. */
  lemma {:induction false} ExecutesWhatIsEmitted(t: Params, table: nat)
    ensures Filter(Program(t), table) == Emits(t, table)
  {
    match t
    case NewOrder(_, _, _, _, _, _) => FilterNewOrder(t, table);
    case Payment(_, _, _) =>
      FilterSix(Program(t), table);
      hide Filter;
    case OrderStatus(_, _, _) => FilterOrderStatus(t, table);
    case Delivery(entries) => FilterEntries(entries, table, |entries|);
    case StockLevel(stocks) => FilterReads(STOCK, stocks, 0, table, |stocks|);
  }

  lemma {:induction false} NoItemsElsewhere(items: seq<Item>, table: nat, n: nat)
    requires n <= |items| && table != ORDER_LINE && table != ITEM && table != STOCK
    ensures EmitItems(items, table, n) == []
  {
    if n > 0 { NoItemsElsewhere(items, table, n - 1); }
  }

  // ------------------------------------------------------------------ distinct plan words

  ghost predicate DistinctWords(ts: seq<Touch>) {
    forall g: nat, h: nat | g < h < |ts| :: ts[g].word != ts[h].word
  }

  ghost predicate WordsApart(a: seq<Touch>, b: seq<Touch>) {
    forall g: nat, h: nat | g < |a| && h < |b| :: a[g].word != b[h].word
  }

  ghost predicate WordsWithin(ts: seq<Touch>, lo: nat, hi: nat) {
    forall g: nat | g < |ts| :: lo <= ts[g].word < hi
  }

  lemma {:induction false} DistinctConcat(a: seq<Touch>, b: seq<Touch>)
    requires DistinctWords(a) && DistinctWords(b) && WordsApart(a, b)
    ensures DistinctWords(a + b)
  {}

  lemma {:induction false} WithinConcat(a: seq<Touch>, b: seq<Touch>, lo: nat, mid: nat, hi: nat)
    requires WordsWithin(a, lo, mid) && WordsWithin(b, mid, hi) && DistinctWords(a) && DistinctWords(b)
             && lo <= mid <= hi
    ensures WordsWithin(a + b, lo, hi) && DistinctWords(a + b)
  {
    assert WordsApart(a, b);
    DistinctConcat(a, b);
    hide DistinctWords;
  }

  lemma {:induction false} ReadsWords(table: nat, rows: seq<nat>, first: nat, n: nat)
    requires n <= |rows|
    ensures DistinctWords(Reads(table, rows, first, n)) && WordsWithin(Reads(table, rows, first, n), first, first + n)
    decreases n
  {
    if n > 0 {
      ReadsWords(table, rows, first, n - 1);
      var a, b := Reads(table, rows, first, n - 1), [Touch(table, rows[n - 1], false, first + n - 1)];
      assert DistinctWords(b) && WordsWithin(b, first + n - 1, first + n);
      hide DistinctWords, WordsWithin;
      WithinConcat(a, b, first, first + n - 1, first + n);
    }
  }

  lemma {:induction false} ItemsWords(items: seq<Item>, n: nat)
    requires n <= |items|
    ensures DistinctWords(ItemsProgram(items, n)) && WordsWithin(ItemsProgram(items, n), 6, 6 + 4 * n)
    decreases n
  {
    hide DistinctWords, WordsWithin, ItemProgram;
    if n > 0 {
      ItemsWords(items, n - 1);
      ItemWords(items[n - 1], n - 1);
      WithinConcat(ItemsProgram(items, n - 1), ItemProgram(items[n - 1], n - 1), 6, 6 + 4 * (n - 1), 6 + 4 * n);
    } else {
      NoWords(6, 6);
    }
  }

  lemma ItemWords(item: Item, i: nat)
    ensures DistinctWords(ItemProgram(item, i)) && WordsWithin(ItemProgram(item, i), 6 + 4 * i, 10 + 4 * i)
  {}

  lemma NoWords(lo: nat, hi: nat)
    ensures DistinctWords([]) && WordsWithin([], lo, hi)
  {}

  /** The words of a Delivery's entry i. */
  predicate InEntry(word: nat, i: nat) {
    word == i || word == 10 + i || word == 20 + i || word == 30 + i || word == 40 + i || InLines(word, i, 15)
  }

  predicate InLines(word: nat, i: nat, n: nat) {
    50 + 15 * i <= word < 50 + 15 * i + n || 200 + 15 * i <= word < 200 + 15 * i + n
  }

  ghost predicate LinesWithin(ts: seq<Touch>, i: nat, n: nat) {
    forall g: nat | g < |ts| :: InLines(ts[g].word, i, n)
  }

  ghost predicate WithinEntry(ts: seq<Touch>, i: nat) {
    forall g: nat | g < |ts| :: InEntry(ts[g].word, i)
  }

  lemma {:induction false} LinesWords(lines: seq<nat>, i: nat, n: nat)
    requires n <= |lines| <= 15 && i < 10
    ensures DistinctWords(LinesProgram(lines, i, n)) && LinesWithin(LinesProgram(lines, i, n), i, n)
    decreases n
  {
    if n > 0 {
      LinesWords(lines, i, n - 1);
      var a := LinesProgram(lines, i, n - 1);
      var b := [Touch(ORDER_LINE, lines[n - 1], false, DlOrderLineRead(i, n - 1)),
                Touch(ORDER_LINE, lines[n - 1], true, DlOrderLineWrite(i, n - 1))];
      assert LinesProgram(lines, i, n) == a + b;
      hide LinesProgram;
      assert DistinctWords(b) && WordsApart(a, b);
      DistinctConcat(a, b);
      hide DistinctWords, WordsApart;
    }
  }

  lemma {:induction false} EntryWords(e: Delivered, i: nat)
    requires i < 10 && |e.orderLines| <= 15
    ensures DistinctWords(EntryProgram(e, i)) && WithinEntry(EntryProgram(e, i), i)
  {
    var head := [Touch(NEW_ORDER, e.newOrder, false, DlNewOrderRead(i)),
                 Touch(ORDER, e.order, false, DlOrderRead(i)), Touch(ORDER, e.order, true, DlOrderWrite(i))];
    var lines := LinesProgram(e.orderLines, i, |e.orderLines|);
    var tail := [Touch(CUSTOMER, e.customer, false, DlCustomerRead(i)),
      Touch(CUSTOMER, e.customer, true, DlCustomerWrite(i))];
    LinesWords(e.orderLines, i, |e.orderLines|);
    assert EntryProgram(e, i) == head + lines + tail;
    hide LinesProgram, EntryProgram;
    assert DistinctWords(head) && WordsWithin(head, 0, 30) && DistinctWords(tail) && WordsWithin(tail, 30, 50);
    assert WithinEntry(head, i) && WithinEntry(lines, i) && WithinEntry(tail, i);
    assert WithinEntry(head + lines + tail, i);
    assert WordsWithin(lines, 50, 350);
    hide WithinEntry, LinesWithin;
    HeadLinesTail(head, lines, tail);
  }

  lemma {:induction false} HeadLinesTail(head: seq<Touch>, lines: seq<Touch>, tail: seq<Touch>)
    requires DistinctWords(head) && DistinctWords(lines) && DistinctWords(tail)
    requires WordsWithin(head, 0, 30) && WordsWithin(lines, 50, 350) && WordsWithin(tail, 30, 50)
    ensures DistinctWords(head + lines + tail)
  {
    assert WordsApart(head, lines);
    DistinctConcat(head, lines);
    assert WordsApart(head + lines, tail);
    hide DistinctWords, WordsWithin;
    DistinctConcat(head + lines, tail);
  }

  ghost predicate InSomeEntry(word: nat, n: nat) {
    exists i: nat :: i < n && InEntry(word, i)
  }

  ghost predicate WithinEntries(ts: seq<Touch>, n: nat) {
    forall g: nat | g < |ts| :: InSomeEntry(ts[g].word, n)
  }

  lemma {:induction false} EntriesWords(entries: seq<Delivered>, n: nat)
    requires n <= |entries| <= 10 && forall i | 0 <= i < |entries| :: |entries[i].orderLines| <= 15
    ensures DistinctWords(EntriesProgram(entries, n)) && WithinEntries(EntriesProgram(entries, n), n)
    decreases n
  {
    if n > 0 {
      EntriesWords(entries, n - 1);
      EntryWords(entries[n - 1], n - 1);
      var a, b := EntriesProgram(entries, n - 1), EntryProgram(entries[n - 1], n - 1);
      assert EntriesProgram(entries, n) == a + b;
      hide EntriesProgram, EntryProgram, InEntry;
      EntriesConcat(a, b, n - 1);
    }
  }

  lemma {:induction false} EntriesConcat(a: seq<Touch>, b: seq<Touch>, n: nat)
    requires DistinctWords(a) && DistinctWords(b) && WithinEntries(a, n) && WithinEntry(b, n) && n < 10
    ensures DistinctWords(a + b) && WithinEntries(a + b, n + 1)
  {
    hide InEntry;
    forall g: nat, h: nat | g < |a| && h < |b| ensures a[g].word != b[h].word {
      assert InSomeEntry(a[g].word, n);
      var i: nat :| i < n && InEntry(a[g].word, i);
      EntriesApart(a[g].word, i, n);
    }
    DistinctConcat(a, b);
    forall g: nat | g < |a + b| ensures InSomeEntry((a + b)[g].word, n + 1) {
      if g < |a| {
        assert InSomeEntry(a[g].word, n);
      } else {
        assert InEntry(b[g - |a|].word, n);
      }
    }
  }

  lemma EntriesApart(word: nat, i: nat, j: nat)
    requires i < j < 10 && InEntry(word, i)
    ensures !InEntry(word, j)
  {}

  lemma {:induction false} EntryWordsBelow(ts: seq<Touch>)
    requires WithinEntries(ts, 10)
    ensures WordsWithin(ts, 0, PLAN_WORDS)
  {
    forall g: nat | g < |ts| ensures ts[g].word < PLAN_WORDS {
      assert InSomeEntry(ts[g].word, 10);
      var i: nat :| i < 10 && InEntry(ts[g].word, i);
    }
  }

  lemma {:induction false} NewOrderWords(t: Params)
    requires t.NewOrder? && Fits(t)
    ensures DistinctWords(Program(t)) && WordsWithin(Program(t), 0, PLAN_WORDS)
  {
    ItemsWords(t.items, |t.items|);
    var head, rest := Program(t)[..6], ItemsProgram(t.items, |t.items|);
    assert Program(t) == head + rest;
    assert DistinctWords(head) && WordsWithin(head, 0, 6);
    hide Program, DistinctWords, ItemsProgram;
    WithinConcat(head, rest, 0, 6, 6 + 4 * |t.items|);
  }

  lemma {:induction false} OrderStatusWords(t: Params)
    requires t.OrderStatus? && Fits(t)
    ensures DistinctWords(Program(t)) && WordsWithin(Program(t), 0, PLAN_WORDS)
  {
    var head, rest := Program(t)[..2], Reads(ORDER_LINE, t.orderLines, 2, |t.orderLines|);
    ReadsWords(ORDER_LINE, t.orderLines, 2, |t.orderLines|);
    assert Program(t) == head + rest;
    assert DistinctWords(head) && WordsWithin(head, 0, 2);
    hide Program, DistinctWords, Reads;
    WithinConcat(head, rest, 0, 2, 2 + |t.orderLines|);
  }

  /** No two accesses of a transaction look into the same word of its plan, and every word is
      within the plan and within the eleven bits of a packed offset. */
  lemma {:induction false} ProgramWords(t: Params)
    requires Fits(t)
    ensures DistinctWords(Program(t)) && WordsWithin(Program(t), 0, PLAN_WORDS) && PLAN_WORDS <= 0x800
  {
    match t
    case NewOrder(_, _, _, _, _, _) => NewOrderWords(t);
    case Payment(_, _, _) =>
    case OrderStatus(_, _, _) => OrderStatusWords(t);
    case Delivery(entries) =>
      EntriesWords(entries, 10);
      hide EntriesProgram, DistinctWords;
      EntryWordsBelow(EntriesProgram(entries, 10));
    case StockLevel(stocks) =>
      ReadsWords(STOCK, stocks, 0, |stocks|);
      hide Reads, DistinctWords;
  }
}
