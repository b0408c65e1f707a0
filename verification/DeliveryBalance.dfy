/** What an epoch does to the customers' balances.  A Delivery adds up the amounts of an order's
    lines in one lane and adds the sum of another lane to the balance: what has been delivered is
    never added.  With the lanes as they are meant, the same epoch would add it. */
module DeliveryBalance {
  import opened Execution
  import opened Machine
  import opened Money
  import opened SerialEquivalence
  import opened SerialRows
  import opened TpccEpoch
  import opened TpccLanes
  import opened TpccProgram
  import opened TpccSubmitter
  import opened TpccTables

  function CustomerKey(c: nat): Key { Key(CUSTOMER, c) }
  function LineKey(line: nat): Key { Key(ORDER_LINE, line) }

  ghost predicate WideEnough(width: nat -> nat) { width(CUSTOMER) > C_BALANCE && width(ORDER_LINE) > OL_AMOUNT }

  // ------------------------------------------------------------------ what should happen

  /** The amount of a line after n items of a NewOrder. */
  function ItemsAmount(items: seq<Item>, quantities: nat -> nat, n: nat, line: nat, before: nat): nat
    requires n <= |items|
  {
    if n == 0 then before
    else if items[n - 1].orderLine == line then quantities(n - 1)
    else ItemsAmount(items, quantities, n - 1, line, before)
  }

  /** The amount of a line before transaction u: the quantity last ordered under it, or what it began with. */
  function LineAmount(txns: seq<Params>, values: nat -> Values, db: Database, line: nat, u: nat): nat
    requires u <= |txns|
  {
    if u == 0 then WordIn(db(LineKey(line)), OL_AMOUNT)
    else
      var before := LineAmount(txns, values, db, line, u - 1);
      if txns[u - 1].NewOrder? then
        ItemsAmount(txns[u - 1].items, values(u - 1).quantities, |txns[u - 1].items|, line, before)
      else before
  }

  /** What the first n of some lines come to before transaction u. */
  function LinesAmount(txns: seq<Params>, values: nat -> Values, db: Database, lines: seq<nat>, n: nat, u: nat): nat
    requires n <= |lines| && u <= |txns|
  {
    if n == 0 then 0
    else LinesAmount(txns, values, db, lines, n - 1, u) + LineAmount(txns, values, db, lines[n - 1], u)
  }

  /** What the first n entries of Delivery u deliver to customer c. */
  function DeliveredIn(txns: seq<Params>, values: nat -> Values, db: Database, entries: seq<Delivered>, n: nat, c: nat,
                       u: nat): nat
    requires n <= |entries| && u <= |txns|
  {
    if n == 0 then 0
    else
      DeliveredIn(txns, values, db, entries, n - 1, c, u)
      + (if entries[n - 1].customer == c
         then LinesAmount(txns, values, db, entries[n - 1].orderLines, |entries[n - 1].orderLines|, u) else 0)
  }

  /** What the first u transactions deliver to customer c. */
  function DeliveredTo(txns: seq<Params>, values: nat -> Values, db: Database, c: nat, u: nat): nat
    requires u <= |txns|
  {
    if u == 0 then 0
    else
      DeliveredTo(txns, values, db, c, u - 1)
      + (if txns[u - 1].Delivery?
         then DeliveredIn(txns, values, db, txns[u - 1].entries, |txns[u - 1].entries|, c, u - 1) else 0)
  }

  /** What customer c pays in the first u transactions. */
  function PaidBy(txns: seq<Params>, values: nat -> Values, c: nat, u: nat): nat
    requires u <= |txns|
  {
    if u == 0 then 0
    else
      PaidBy(txns, values, c, u - 1)
      + (if txns[u - 1].Payment? && txns[u - 1].customer == c then values(u - 1).paymentAmount else 0)
  }

  // ------------------------------------------------------------------ arithmetic

  ghost predicate Congruent(a: int, b: int) { (a - b) % WORD == 0 }

  lemma CongruentSum(a: int, b: int, c: int, d: int)
    requires Congruent(a, b) && Congruent(c, d)
    ensures Congruent(a + c, b + d)
  {}

  lemma CongruentTrans(a: int, b: int, c: int)
    requires Congruent(a, b) && Congruent(b, c)
    ensures Congruent(a, c)
  {}

  lemma AddIsCongruent(a: nat, x: nat, y: int)
    requires Congruent(x, y)
    ensures Congruent(AddWord(a, x), a + y)
  {}

  lemma SubIsCongruent(a: nat, x: nat)
    ensures Congruent(SubWord(a, x), a - x)
  {}

  /** The other lanes add nothing up. */
  lemma {:induction false} OthersAddNothing(seen: seq<Row>, n: nat, i: nat)
    requires i != OL_AMOUNT
    ensures Accumulated(seen, n, i) == 0
    decreases n
  {
    if n > 0 && seen != [] { OthersAddNothing(seen[..|seen| - 1], n - 1, i); }
  }

  lemma OneMoreAdded(seen: seq<Row>, row: Row, n: nat)
    ensures Accumulated(seen + [row], n + 1, OL_AMOUNT) == AddWord(Accumulated(seen, n, OL_AMOUNT),
            WordIn(row, OL_AMOUNT))
  {
    assert (seen + [row])[..|seen + [row]| - 1] == seen;
  }

  // ------------------------------------------------------------------ the lines of a Delivery

  /** Where line m of entry e is read; its write follows. */
  function LineAccess(t: Params, e: nat, m: nat): nat
    requires t.Delivery? && e < |t.entries|
  {
    EntryStart(t, e) + 3 + 2 * m
  }

  lemma {:induction false} LineIsUpdated(t: Params, e: nat, m: nat)
    requires t.Delivery? && e < |t.entries| && m < |t.entries[e].orderLines|
    ensures var p := LineAccess(t, e, m);
            && Updates(t, p) && KeyOf(Program(t)[p]) == LineKey(t.entries[e].orderLines[m])
            && Program(t)[p + 1] == Touch(ORDER_LINE, t.entries[e].orderLines[m], true, DlOrderLineWrite(e, m))
  {
    hide EntryProgram, Program, EntryStart;
    EntryLine(t.entries[e], e, m);
    AccessOfEntry(t, e, 2 * m + 3);
    AccessOfEntry(t, e, 2 * m + 4);
  }

  lemma {:induction false} CustomerIsUpdated(t: Params, e: nat)
    requires t.Delivery? && e < |t.entries|
    ensures var p := LineAccess(t, e, |t.entries[e].orderLines|);
            && Updates(t, p) && KeyOf(Program(t)[p]) == CustomerKey(t.entries[e].customer)
            && Program(t)[p + 1] == Touch(CUSTOMER, t.entries[e].customer, true, DlCustomerWrite(e))
            && EntryStart(t, e + 1) == p + 2
  {
    hide EntryProgram, Program, EntryStart;
    EntryTail(t.entries[e], e);
    AccessOfEntry(t, e, 2 * |t.entries[e].orderLines| + 3);
    AccessOfEntry(t, e, 2 * |t.entries[e].orderLines| + 4);
  }

  // ------------------------------------------------------------------ one entry of a Delivery

  function BalanceIn(row: Row): nat { WordIn(row, C_BALANCE) }
  function AmountIn(row: Row): nat { WordIn(row, OL_AMOUNT) }

  /** The first accesses of an entry are to other tables. */
  lemma {:induction false} HeadKeeps(b: SerialBatch, u: nat, e: nat, k: Key)
    requires u < |b.txns| && b.txns[u].Delivery? && e < |b.txns[u].entries| && k.table in {CUSTOMER, ORDER_LINE}
    ensures LineAccess(b.txns[u], e, 0) <= |Program(b.txns[u])|
    ensures RowAt(b, u, LineAccess(b.txns[u], e, 0), k) == RowAt(b, u, EntryStart(b.txns[u], e), k)
  {
    hide EntryProgram, Program, EntryStart, RowAt;
    var t := b.txns[u];
    EntryHead(t.entries[e], e);
    AccessOfEntry(t, e, 0);
    AccessOfEntry(t, e, 1);
    AccessOfEntry(t, e, 2);
    RowKept(b, u, EntryStart(t, e), EntryStart(t, e) + 3, k);
  }

  /** A line that is delivered keeps its amount, which the lanes have read. */
  lemma {:induction false} LineDelivered(b: SerialBatch, u: nat, e: nat, m: nat, k: Key)
    requires u < |b.txns| && b.txns[u].Delivery? && e < |b.txns[u].entries| && WideEnough(b.width)
    requires m < |b.txns[u].entries[e].orderLines|
    ensures var p := LineAccess(b.txns[u], e, m);
            && p + 2 <= |Program(b.txns[u])|
            && SeenAt(b, u, p + 2) ==
               SeenAt(b, u, p) + [RowAt(b, u, p, LineKey(b.txns[u].entries[e].orderLines[m]))]
            && (k.table == CUSTOMER ==> RowAt(b, u, p + 2, k) == RowAt(b, u, p, k))
            && (k.table == ORDER_LINE ==> AmountIn(RowAt(b, u, p + 2, k)) == AmountIn(RowAt(b, u, p, k)))
  {
    hide Program, LineAccess, RowAt, SeenAt, LaneWrite, WordIn, Register;
    var t, line := b.txns[u], b.txns[u].entries[e].orderLines[m];
    var p := LineAccess(t, e, m);
    LineIsUpdated(t, e, m);
    AmountLane(b, u, Touch(ORDER_LINE, line, true, DlOrderLineWrite(e, m)),
      SeenAt(b, u, p) + [RowAt(b, u, p, LineKey(line))]);
    Update(b, u, p, OL_AMOUNT, k);
  }

  lemma AmountLane(b: SerialBatch, u: nat, x: Touch, seen: seq<Row>)
    requires u < |b.txns| && b.txns[u].Delivery? && x.table == ORDER_LINE
    ensures LaneWrite(b.txns[u], b.values(u), x, seen, OL_AMOUNT, b.adder) == Register(seen, OL_AMOUNT)
  {
    hide Register, Accumulated, AddWord;
  }

  /** Every line's amount before access p of transaction u is the one that is due. */
  ghost predicate AmountsDue(b: SerialBatch, u: nat, p: nat)
    requires u < |b.txns| && p <= |Program(b.txns[u])|
  {
    forall line: nat :: AmountIn(RowAt(b, u, p, LineKey(line))) == LineAmount(b.txns, b.values, b.db, line, u)
  }

  lemma LineAccessFits(t: Params, e: nat, m: nat)
    requires t.Delivery? && e < |t.entries| && m <= |t.entries[e].orderLines|
    ensures LineAccess(t, e, m) + 2 <= |Program(t)|
  {
    CustomerIsUpdated(t, e);
  }

  /** After m lines the lane of the amount has added up what they come to. */
  lemma {:induction false} LinesDelivered(b: SerialBatch, u: nat, e: nat, m: nat, c: nat)
    requires u < |b.txns| && b.txns[u].Delivery? && e < |b.txns[u].entries| && WideEnough(b.width)
    requires m <= |b.txns[u].entries[e].orderLines|
    requires EntryStart(b.txns[u], e) <= |Program(b.txns[u])| && AmountsDue(b, u, EntryStart(b.txns[u], e))
    ensures var t := b.txns[u];
            var p := LineAccess(t, e, m);
            && p + 2 <= |Program(t)| && AmountsDue(b, u, p)
            && RowAt(b, u, p, CustomerKey(c)) == RowAt(b, u, EntryStart(t, e), CustomerKey(c))
            && Congruent(Accumulated(SeenAt(b, u, p), m, OL_AMOUNT),
                         LinesAmount(b.txns, b.values, b.db, t.entries[e].orderLines, m, u))
    decreases m
  {
    hide Program, EntryStart, RowAt, SeenAt, LineAmount, WordIn, WideEnough;
    var t := b.txns[u];
    LineAccessFits(t, e, m);
    if m == 0 {
      forall line: nat ensures
          AmountIn(RowAt(b, u, LineAccess(t, e, 0), LineKey(line))) == LineAmount(b.txns, b.values, b.db, line, u)
      {
        HeadKeeps(b, u, e, LineKey(line));
      }
      HeadKeeps(b, u, e, CustomerKey(c));
    } else {
      LinesDelivered(b, u, e, m - 1, c);
      OneLineDelivered(b, u, e, m - 1, c);
    }
  }

  lemma {:induction false} OneLineDelivered(b: SerialBatch, u: nat, e: nat, m: nat, c: nat)
    requires u < |b.txns| && b.txns[u].Delivery? && e < |b.txns[u].entries| && WideEnough(b.width)
    requires m < |b.txns[u].entries[e].orderLines|
    requires LineAccess(b.txns[u], e, m + 1) <= |Program(b.txns[u])| && AmountsDue(b, u, LineAccess(b.txns[u], e, m))
    requires Congruent(Accumulated(SeenAt(b, u, LineAccess(b.txns[u], e, m)), m, OL_AMOUNT),
                       LinesAmount(b.txns, b.values, b.db, b.txns[u].entries[e].orderLines, m, u))
    ensures var t := b.txns[u];
            var p := LineAccess(t, e, m + 1);
            && AmountsDue(b, u, p)
            && RowAt(b, u, p, CustomerKey(c)) == RowAt(b, u, LineAccess(t, e, m), CustomerKey(c))
            && Congruent(Accumulated(SeenAt(b, u, p), m + 1, OL_AMOUNT),
                         LinesAmount(b.txns, b.values, b.db, t.entries[e].orderLines, m + 1, u))
  {
    hide Program, EntryStart, RowAt, SeenAt, LineAmount, WordIn, WideEnough, Congruent, AddWord, Accumulated;
    var t := b.txns[u];
    var p, lines := LineAccess(t, e, m), t.entries[e].orderLines;
    assert LineAccess(t, e, m + 1) == p + 2;
    forall line: nat ensures
        AmountIn(RowAt(b, u, p + 2, LineKey(line))) == LineAmount(b.txns, b.values, b.db, line, u)
    {
      LineDelivered(b, u, e, m, LineKey(line));
    }
    LineDelivered(b, u, e, m, CustomerKey(c));
    assert AmountIn(RowAt(b, u, p, LineKey(lines[m]))) == LineAmount(b.txns, b.values, b.db, lines[m], u);
    OneMoreAdded(SeenAt(b, u, p), RowAt(b, u, p, LineKey(lines[m])), m);
    OneMoreSum(Accumulated(SeenAt(b, u, p), m, OL_AMOUNT),
      LinesAmount(b.txns, b.values, b.db, lines, m, u), LineAmount(b.txns, b.values, b.db, lines[m], u));
  }

  lemma OneMoreSum(a: nat, x: int, y: nat)
    requires Congruent(a, x)
    ensures Congruent(AddWord(a, y), x + y)
  {}

  /** What an entry adds to a customer's balance. */
  function EntryAdds(b: SerialBatch, e: Delivered, c: nat, u: nat): nat
    requires u <= |b.txns|
  {
    if e.customer == c && b.adder == OL_AMOUNT then
      LinesAmount(b.txns, b.values, b.db, e.orderLines, |e.orderLines|, u)
    else 0
  }

  lemma {:induction false} EntryDelivered(b: SerialBatch, u: nat, e: nat, c: nat)
    requires u < |b.txns| && b.txns[u].Delivery? && e < |b.txns[u].entries| && WideEnough(b.width)
    requires EntryStart(b.txns[u], e) <= |Program(b.txns[u])| && AmountsDue(b, u, EntryStart(b.txns[u], e))
    ensures var t := b.txns[u];
            && EntryStart(t, e + 1) <= |Program(t)| && AmountsDue(b, u, EntryStart(t, e + 1))
            && Congruent(BalanceIn(RowAt(b, u, EntryStart(t, e + 1), CustomerKey(c))),
                         BalanceIn(RowAt(b, u, EntryStart(t, e), CustomerKey(c))) + EntryAdds(b, t.entries[e], c, u))
  {
    hide Program, EntryStart, LineAccess, RowAt, SeenAt, LineAmount, WordIn, WideEnough, LinesAmount, Accumulated;
    hide Congruent;
    var t := b.txns[u];
    var n := |t.entries[e].orderLines|;
    var p := LineAccess(t, e, n);
    LinesDelivered(b, u, e, n, c);
    CustomerIsUpdated(t, e);
    forall line: nat ensures
        AmountIn(RowAt(b, u, p + 2, LineKey(line))) == LineAmount(b.txns, b.values, b.db, line, u)
    {
      CustomerUpdateKeeps(b, u, e, LineKey(line));
    }
    if t.entries[e].customer == c {
      BalanceWritten(b, u, e);
    } else {
      CustomerUpdateKeeps(b, u, e, CustomerKey(c));
      CongruentSelf(BalanceIn(RowAt(b, u, p, CustomerKey(c))));
    }
  }

  lemma CongruentSelf(a: int)
    ensures Congruent(a, a)
  {}

  lemma {:induction false} CustomerUpdateKeeps(b: SerialBatch, u: nat, e: nat, k: Key)
    requires u < |b.txns| && b.txns[u].Delivery? && e < |b.txns[u].entries|
    requires k != CustomerKey(b.txns[u].entries[e].customer)
    ensures var p := LineAccess(b.txns[u], e, |b.txns[u].entries[e].orderLines|);
            p + 2 <= |Program(b.txns[u])| && RowAt(b, u, p + 2, k) == RowAt(b, u, p, k)
  {
    hide Program, LineAccess, RowAt, SeenAt, LaneWrite;
    CustomerIsUpdated(b.txns[u], e);
    Update(b, u, LineAccess(b.txns[u], e, |b.txns[u].entries[e].orderLines|), 0, k);
  }

  /** The balance that an entry writes. */
  lemma {:induction false} BalanceWritten(b: SerialBatch, u: nat, e: nat)
    requires u < |b.txns| && b.txns[u].Delivery? && e < |b.txns[u].entries| && WideEnough(b.width)
    requires var p := LineAccess(b.txns[u], e, |b.txns[u].entries[e].orderLines|);
             && p + 2 <= |Program(b.txns[u])|
             && Congruent(Accumulated(SeenAt(b, u, p), |b.txns[u].entries[e].orderLines|, OL_AMOUNT),
                LinesAmount(b.txns, b.values, b.db, b.txns[u].entries[e].orderLines,
                            |b.txns[u].entries[e].orderLines|, u))
    ensures var p, x := LineAccess(b.txns[u], e, |b.txns[u].entries[e].orderLines|), b.txns[u].entries[e];
            Congruent(BalanceIn(RowAt(b, u, p + 2, CustomerKey(x.customer))),
                      BalanceIn(RowAt(b, u, p, CustomerKey(x.customer))) + EntryAdds(b, x, x.customer, u))
  {
    hide Program, LineAccess, RowAt, SeenAt, LinesAmount, Congruent, Accumulated, AddWord, LaneWrite, WordIn, Register;
    var t, x := b.txns[u], b.txns[u].entries[e];
    var n := |x.orderLines|;
    var p := LineAccess(t, e, n);
    CustomerIsUpdated(t, e);
    BalanceLane(b, u, e, SeenAt(b, u, p), RowAt(b, u, p, CustomerKey(x.customer)));
    Update(b, u, p, C_BALANCE, CustomerKey(x.customer));
    if b.adder == OL_AMOUNT {
      AddIsCongruent(BalanceIn(RowAt(b, u, p, CustomerKey(x.customer))), Accumulated(SeenAt(b, u, p), n, OL_AMOUNT),
        LinesAmount(b.txns, b.values, b.db, x.orderLines, n, u));
    } else {
      OthersAddNothing(SeenAt(b, u, p), n, b.adder);
      CongruentSelf(0);
      AddIsCongruent(BalanceIn(RowAt(b, u, p, CustomerKey(x.customer))), 0, 0);
    }
  }

  lemma BalanceLane(b: SerialBatch, u: nat, e: nat, seen: seq<Row>, row: Row)
    requires u < |b.txns| && b.txns[u].Delivery? && e < |b.txns[u].entries|
    ensures var x := b.txns[u].entries[e];
            LaneWrite(b.txns[u], b.values(u), Touch(CUSTOMER, x.customer, true, DlCustomerWrite(e)), seen + [row],
              C_BALANCE, b.adder) ==
            AddWord(BalanceIn(row), Accumulated(seen, |x.orderLines|, b.adder))
  {
    assert (seen + [row])[..|seen + [row]| - 1] == seen;
    hide Accumulated, AddWord;
  }

  // ------------------------------------------------------------------ whole transactions

  /** What the first n entries of a Delivery add to a customer's balance. */
  function EntriesAdd(b: SerialBatch, entries: seq<Delivered>, n: nat, c: nat, u: nat): nat
    requires n <= |entries| && u <= |b.txns|
  {
    if b.adder == OL_AMOUNT then DeliveredIn(b.txns, b.values, b.db, entries, n, c, u) else 0
  }

  lemma {:induction false} EntriesDelivered(b: SerialBatch, u: nat, n: nat, c: nat)
    requires u < |b.txns| && b.txns[u].Delivery? && n <= |b.txns[u].entries| && WideEnough(b.width)
    requires AmountsDue(b, u, 0)
    ensures var t := b.txns[u];
            && EntryStart(t, n) <= |Program(t)| && AmountsDue(b, u, EntryStart(t, n))
            && Congruent(BalanceIn(RowAt(b, u, EntryStart(t, n), CustomerKey(c))),
                         BalanceIn(RowAt(b, u, 0, CustomerKey(c))) + EntriesAdd(b, t.entries, n, c, u))
    decreases n
  {
    hide Program, RowAt, WideEnough, AmountsDue, WordIn, Congruent, LinesAmount, EntryProgram;
    var t := b.txns[u];
    if n == 0 {
      CongruentSelf(BalanceIn(RowAt(b, u, 0, CustomerKey(c))));
    } else {
      EntriesDelivered(b, u, n - 1, c);
      hide EntryStart;
      EntryDelivered(b, u, n - 1, c);
      var before, here := EntriesAdd(b, t.entries, n - 1, c, u), EntryAdds(b, t.entries[n - 1], c, u);
      var balance := BalanceIn(RowAt(b, u, EntryStart(t, n - 1), CustomerKey(c)));
      var start := BalanceIn(RowAt(b, u, 0, CustomerKey(c)));
      CongruentSelf(here);
      CongruentSum(balance, start + before, here, here);
      CongruentTrans(BalanceIn(RowAt(b, u, EntryStart(t, n), CustomerKey(c))), balance + here, start + before + here);
    }
  }

  /** Where a NewOrder writes order lines. */
  lemma {:induction false} NewOrderTouch(t: Params, p: nat)
    requires t.NewOrder? && p < |Program(t)|
    ensures var x := Program(t)[p];
            && |Program(t)| == 6 + 4 * |t.items|
            && (x.table == CUSTOMER ==> !x.write)
            && (x.table == ORDER_LINE ==> 6 <= p && (p - 6) % 4 == 3 && (p - 6) / 4 < |t.items|
                                          && x == Touch(ORDER_LINE, t.items[(p - 6) / 4].orderLine, true,
                                                        NoOrderLine((p - 6) / 4)))
  {
    hide Program;
    NewOrderHead(t);
    if p >= 6 {
      var l, r := (p - 6) / 4, (p - 6) % 4;
      NewOrderItem(t, l);
      assert p == 6 + 4 * l + r;
    }
  }

  /** After n items of a NewOrder its lines have what has been ordered. */
  lemma {:induction false} ItemsOrdered(b: SerialBatch, u: nat, n: nat, line: nat)
    requires u < |b.txns| && b.txns[u].NewOrder? && n <= |b.txns[u].items| && WideEnough(b.width)
    ensures |Program(b.txns[u])| == 6 + 4 * |b.txns[u].items|
    ensures AmountIn(RowAt(b, u, 6 + 4 * n, LineKey(line))) ==
            ItemsAmount(b.txns[u].items, b.values(u).quantities, n, line, AmountIn(RowAt(b, u, 0, LineKey(line))))
    decreases n
  {
    hide Program, RowAt, WordIn, WideEnough;
    var t := b.txns[u];
    NewOrderHead(t);
    if n == 0 {
      KeepsLine(b, u, 0, 6, LineKey(line));
    } else {
      ItemsOrdered(b, u, n - 1, line);
      KeepsLine(b, u, 2 + 4 * n, 5 + 4 * n, LineKey(line));
      ItemOrdered(b, u, n - 1, line);
    }
  }

  /** Between its order-line writes a NewOrder writes none. */
  lemma {:induction false} KeepsLine(b: SerialBatch, u: nat, p: nat, q: nat, k: Key)
    requires u < |b.txns| && b.txns[u].NewOrder? && k.table == ORDER_LINE
    requires p <= q <= |Program(b.txns[u])| && (q <= 6 || (6 <= p && (p - 6) % 4 == 0 && q == p + 3))
    ensures RowAt(b, u, q, k) == RowAt(b, u, p, k)
  {
    hide Program, RowAt;
    forall i: nat | p <= i < q ensures Program(b.txns[u])[i].write ==> KeyOf(Program(b.txns[u])[i]) != k {
      NewOrderTouch(b.txns[u], i);
    }
    RowKept(b, u, p, q, k);
  }

  lemma {:induction false} ItemOrdered(b: SerialBatch, u: nat, m: nat, line: nat)
    requires u < |b.txns| && b.txns[u].NewOrder? && m < |b.txns[u].items| && WideEnough(b.width)
    ensures |Program(b.txns[u])| == 6 + 4 * |b.txns[u].items|
    ensures AmountIn(RowAt(b, u, 10 + 4 * m, LineKey(line))) ==
            if b.txns[u].items[m].orderLine == line then b.values(u).quantities(m)
            else AmountIn(RowAt(b, u, 9 + 4 * m, LineKey(line)))
  {
    hide Program, RowAt, SeenAt, WordIn, LaneWrite;
    var t := b.txns[u];
    NewOrderItem(t, m);
    WriteStep(b, u, 9 + 4 * m, LineKey(line));
    WrittenIs(b, u, 9 + 4 * m, OL_AMOUNT);
    OrderedLane(b, u, m, SeenAt(b, u, 9 + 4 * m));
  }

  lemma OrderedLane(b: SerialBatch, u: nat, m: nat, seen: seq<Row>)
    requires u < |b.txns| && b.txns[u].NewOrder? && m < |b.txns[u].items|
    ensures LaneWrite(b.txns[u], b.values(u),
              Touch(ORDER_LINE, b.txns[u].items[m].orderLine, true, NoOrderLine(m)), seen, OL_AMOUNT, b.adder)
            == b.values(u).quantities(m)
  {
    hide NewQuantity, Register;
  }

  /** The other transactions write neither customers nor order lines, but for a Payment's customer. */
  lemma {:induction false} OthersTouch(t: Params, p: nat)
    requires !t.NewOrder? && !t.Delivery? && p < |Program(t)| && Program(t)[p].write
    ensures Program(t)[p].table != ORDER_LINE
    ensures Program(t)[p].table == CUSTOMER ==> t.Payment? && p == 5
  {
    match t
    case Payment(_, _, _) => PaymentTouches(t);
    case OrderStatus(_, _, _) => OrderStatusReads(t, if p >= 2 then p - 2 else 0);
    case StockLevel(_) => StockLevelReads(t, p);
  }

  // ------------------------------------------------------------------ a whole batch

  /** The lines hold the amounts that are due. */
  lemma {:induction false} AmountsHold(b: SerialBatch, u: nat, line: nat)
    requires u <= |b.txns| && WideEnough(b.width)
    ensures AmountIn(RowOf(b, u, LineKey(line))) == LineAmount(b.txns, b.values, b.db, line, u)
    decreases u, 0
  {
    hide Program, RowAt, RowOf, SeenAt, WordIn, WideEnough, ItemsAmount;
    if u == 0 {
      NothingBefore(b, LineKey(line));
    } else {
      var t := b.txns[u - 1];
      TxnBegins(b, u - 1, LineKey(line));
      AmountsHold(b, u - 1, line);
      if t.NewOrder? {
        ItemsOrdered(b, u - 1, |t.items|, line);
      } else if t.Delivery? {
        AmountsBegin(b, u - 1);
        ProgramEnds(t);
        EntriesDelivered(b, u - 1, |t.entries|, 0);
        hide LineAmount;
        assert AmountsDue(b, u - 1, |Program(t)|);
      } else {
        OthersKeep(b, u - 1, LineKey(line));
      }
    }
  }

  lemma {:induction false} AmountsBegin(b: SerialBatch, u: nat)
    requires u < |b.txns| && WideEnough(b.width)
    ensures AmountsDue(b, u, 0)
    decreases u, 1
  {
    hide Program, RowAt, RowOf, SeenAt, WordIn, WideEnough, LineAmount;
    forall line: nat ensures AmountIn(RowAt(b, u, 0, LineKey(line))) == LineAmount(b.txns, b.values, b.db, line, u) {
      TxnBegins(b, u, LineKey(line));
      AmountsHold(b, u, line);
    }
  }

  lemma {:induction false} OthersKeep(b: SerialBatch, u: nat, k: Key)
    requires u < |b.txns| && !b.txns[u].NewOrder? && !b.txns[u].Delivery?
    requires k.table == ORDER_LINE || (k.table == CUSTOMER && !b.txns[u].Payment?)
    ensures RowAt(b, u, |Program(b.txns[u])|, k) == RowAt(b, u, 0, k)
  {
    hide Program, RowAt;
    forall i: nat | i < |Program(b.txns[u])|
      ensures Program(b.txns[u])[i].write ==> KeyOf(Program(b.txns[u])[i]) != k
    {
      if Program(b.txns[u])[i].write { OthersTouch(b.txns[u], i); }
    }
    RowKept(b, u, 0, |Program(b.txns[u])|, k);
  }

  lemma {:induction false} PaymentPays(b: SerialBatch, u: nat, c: nat)
    requires u < |b.txns| && b.txns[u].Payment? && WideEnough(b.width)
    ensures |Program(b.txns[u])| == 6
    ensures BalanceIn(RowAt(b, u, 6, CustomerKey(c))) ==
            if b.txns[u].customer == c
            then SubWord(BalanceIn(RowAt(b, u, 0, CustomerKey(c))), b.values(u).paymentAmount)
            else BalanceIn(RowAt(b, u, 0, CustomerKey(c)))
  {
    hide Program, RowAt, SeenAt, WordIn, Register, LaneWrite, SubWord;
    PaymentUpdates(b.txns[u]);
    forall i: nat | i < 4 ensures Program(b.txns[u])[i].write ==> KeyOf(Program(b.txns[u])[i]) != CustomerKey(c) {
      if Program(b.txns[u])[i].write { OthersTouch(b.txns[u], i); }
    }
    RowKept(b, u, 0, 4, CustomerKey(c));
    Update(b, u, 4, C_BALANCE, CustomerKey(c));
    PayingLane(b, u, SeenAt(b, u, 4) + [RowAt(b, u, 4, CustomerKey(b.txns[u].customer))]);
  }

  lemma PaymentUpdates(t: Params)
    requires t.Payment?
    ensures |Program(t)| == 6 && Updates(t, 4) && KeyOf(Program(t)[4]) == CustomerKey(t.customer)
    ensures Program(t)[5] == Touch(CUSTOMER, t.customer, true, 5)
  {
    PaymentTouches(t);
  }

  lemma PayingLane(b: SerialBatch, u: nat, seen: seq<Row>)
    requires u < |b.txns| && b.txns[u].Payment?
    ensures LaneWrite(b.txns[u], b.values(u), Touch(CUSTOMER, b.txns[u].customer, true, 5), seen, C_BALANCE, b.adder)
            == SubWord(Register(seen, C_BALANCE), b.values(u).paymentAmount)
  {
    hide Register, SubWord;
  }

  lemma {:induction false} NewOrderKeepsCustomer(b: SerialBatch, u: nat, c: nat)
    requires u < |b.txns| && b.txns[u].NewOrder?
    ensures RowAt(b, u, |Program(b.txns[u])|, CustomerKey(c)) == RowAt(b, u, 0, CustomerKey(c))
  {
    hide Program, RowAt;
    forall i: nat | i < |Program(b.txns[u])|
      ensures Program(b.txns[u])[i].write ==> KeyOf(Program(b.txns[u])[i]) != CustomerKey(c)
    {
      NewOrderTouch(b.txns[u], i);
    }
    RowKept(b, u, 0, |Program(b.txns[u])|, CustomerKey(c));
  }

  /** What one transaction pays, and what it delivers. */
  function Pays(b: SerialBatch, u: nat, c: nat): nat
    requires u < |b.txns|
  {
    if b.txns[u].Payment? && b.txns[u].customer == c then b.values(u).paymentAmount else 0
  }

  function Delivers(b: SerialBatch, u: nat, c: nat): nat
    requires u < |b.txns|
  {
    if b.txns[u].Delivery? then
      DeliveredIn(b.txns, b.values, b.db, b.txns[u].entries, |b.txns[u].entries|, c, u)
    else 0
  }

  lemma {:induction false} TxnBalance(b: SerialBatch, u: nat, c: nat)
    requires u < |b.txns| && WideEnough(b.width)
    ensures Congruent(BalanceIn(RowOf(b, u + 1, CustomerKey(c))),
                      BalanceIn(RowOf(b, u, CustomerKey(c))) - Pays(b, u, c)
                      + if b.adder == OL_AMOUNT then Delivers(b, u, c) else 0)
  {
    hide Program, RowAt, RowOf, SeenAt, WordIn, WideEnough, Congruent, DeliveredIn, SubWord;
    var t, k := b.txns[u], CustomerKey(c);
    TxnBegins(b, u, k);
    CongruentSelf(BalanceIn(RowOf(b, u, k)));
    match t {
      case Payment(_, _, _) =>
        PaymentPays(b, u, c);
        SubIsCongruent(BalanceIn(RowOf(b, u, k)), b.values(u).paymentAmount);
      case Delivery(entries) =>
        AmountsBegin(b, u);
        ProgramEnds(t);
        EntriesDelivered(b, u, |entries|, c);
      case NewOrder(_, _, _, _, _, _) => NewOrderKeepsCustomer(b, u, c);
      case _ => OthersKeep(b, u, k);
    }
  }

  /** What has been delivered counts only where the lane of the amount is added. */
  function Added(b: SerialBatch, c: nat, u: nat): nat
    requires u <= |b.txns|
  {
    if b.adder == OL_AMOUNT then DeliveredTo(b.txns, b.values, b.db, c, u) else 0
  }

  /** A customer's balance after u transactions of the serial run. */
  lemma {:induction false} SerialBalance(b: SerialBatch, c: nat, u: nat)
    requires u <= |b.txns| && WideEnough(b.width)
    ensures Congruent(BalanceIn(RowOf(b, u, CustomerKey(c))),
                      BalanceIn(b.db(CustomerKey(c))) - PaidBy(b.txns, b.values, c, u) + Added(b, c, u))
    decreases u
  {
    hide RowOf, WordIn, WideEnough, Congruent, DeliveredIn;
    var k := CustomerKey(c);
    if u == 0 {
      NothingBefore(b, k);
      CongruentSelf(BalanceIn(b.db(k)));
    } else {
      SerialBalance(b, c, u - 1);
      TxnBalance(b, u - 1, c);
      var change := (if b.adder == OL_AMOUNT then Delivers(b, u - 1, c) else 0) - Pays(b, u - 1, c);
      var before := BalanceIn(b.db(k)) - PaidBy(b.txns, b.values, c, u - 1) + Added(b, c, u - 1);
      CongruentSelf(change);
      CongruentSum(BalanceIn(RowOf(b, u - 1, k)), before, change, change);
      CongruentTrans(BalanceIn(RowOf(b, u, k)), BalanceIn(RowOf(b, u - 1, k)) + change, before + change);
    }
  }

  // ------------------------------------------------------------------ epochs

  /** The balance at the end of the serial run of a batch. */
  lemma {:induction false} ResultBalance(b: SerialBatch, c: nat)
    requires WideEnough(b.width)
    ensures WellFormed(JobOf(b))
    ensures Congruent(BalanceIn(SerialResult(JobOf(b), b.db)(CustomerKey(c))),
                      BalanceIn(b.db(CustomerKey(c))) - PaidBy(b.txns, b.values, c, |b.txns|) + Added(b, c, |b.txns|))
  {
    OneUnitEach(b.txns, LaneIn(b), b.width);
    hide TpccJob, WellFormed, LaneIn, WordIn, WideEnough, Congruent, DeliveredTo, PaidBy, SerialStore;
    SerialBalance(b, c, |b.txns|);
  }

  /** What the balance should be: less what the customer has paid, plus what has been delivered. */
  function IntendedBalance(txns: seq<Params>, values: nat -> Values, db: Database, c: nat): int {
    BalanceIn(db(CustomerKey(c))) - PaidBy(txns, values, c, |txns|) + DeliveredTo(txns, values, db, c, |txns|)
  }

  lemma ShuffledJob(txns: seq<Params>, values: nat -> Values, width: nat -> nat, db: Database)
    ensures JobOf(SerialBatch(txns, values, OL_AMOUNT, width, db)) == TpccJob(txns, ShuffledLane(txns, values), width)
  {
    hide TpccJob, LaneAdding;
  }

  lemma DroppedJob(txns: seq<Params>, values: nat -> Values, width: nat -> nat, db: Database)
    ensures JobOf(SerialBatch(txns, values, C_BALANCE, width, db)) == TpccJob(txns, TpccLane(txns, values), width)
  {
    hide TpccJob, LaneAdding;
  }

  /** With the lanes as they are meant, every customer would have the intended balance. */
  lemma {:induction false} ShuffledBalance(txns: seq<Params>, values: nat -> Values, width: nat -> nat, db: Database,
                                           c: nat)
    requires WideEnough(width)
    ensures WellFormed(TpccJob(txns, ShuffledLane(txns, values), width))
    ensures Congruent(BalanceIn(SerialResult(TpccJob(txns, ShuffledLane(txns, values), width), db)(CustomerKey(c))),
                      IntendedBalance(txns, values, db, c))
  {
    hide TpccJob, WellFormed, ShuffledLane, JobOf, WordIn, WideEnough, Congruent, DeliveredTo, PaidBy, SerialResult;
    ShuffledJob(txns, values, width, db);
    ResultBalance(SerialBatch(txns, values, OL_AMOUNT, width, db), c);
  }

  /** With the lanes as they are, nothing is ever added: in the serial run a customer's balance is
      what it was less the customer's payments. */
  lemma {:induction false} DroppedBalance(txns: seq<Params>, values: nat -> Values, width: nat -> nat, db: Database,
                                          c: nat)
    requires WideEnough(width)
    ensures WellFormed(TpccJob(txns, TpccLane(txns, values), width))
    ensures Congruent(BalanceIn(SerialResult(TpccJob(txns, TpccLane(txns, values), width), db)(CustomerKey(c))),
                      BalanceIn(db(CustomerKey(c))) - PaidBy(txns, values, c, |txns|))
  {
    hide TpccJob, WellFormed, TpccLane, JobOf, WordIn, WideEnough, Congruent, DeliveredTo, PaidBy, SerialResult;
    DroppedJob(txns, values, width, db);
    ResultBalance(SerialBatch(txns, values, C_BALANCE, width, db), c);
  }

  /** So it is after an epoch, in every interleaving. */
  lemma {:induction false} EpochBalance(c: Config, schedule: seq<nat>, txns: seq<Params>, values: nat -> Values,
                                        customer: nat)
    requires Ready(c) && c.job == TpccJob(txns, TpccLane(txns, values), c.job.width) && WideEnough(c.job.width)
    requires forall i | 0 <= i < |schedule| :: schedule[i] < NumUnits(c.job)
    requires Finished(c, Run(c, schedule))
    ensures Congruent(BalanceIn(Contents(Run(c, schedule).mem, c.job.width)(CustomerKey(customer))),
                      BalanceIn(Db(c)(CustomerKey(customer))) - PaidBy(txns, values, customer, |txns|))
  {
    hide Run, Contents, TpccJob, TpccLane, SerialResult, WordIn, WideEnough, Congruent, PaidBy, Finished, Db;
    EpochIsSerial(c, schedule);
    hide Ready;
    DroppedBalance(txns, values, c.job.width, Db(c), customer);
  }

  /** That is the intended balance exactly where the amounts delivered to the customer come to
      nothing modulo the size of a word. */
  lemma {:induction false} BalanceIsIntendedIff(c: Config, schedule: seq<nat>, txns: seq<Params>,
                                                values: nat -> Values, customer: nat)
    requires Ready(c) && c.job == TpccJob(txns, TpccLane(txns, values), c.job.width) && WideEnough(c.job.width)
    requires forall i | 0 <= i < |schedule| :: schedule[i] < NumUnits(c.job)
    requires Finished(c, Run(c, schedule))
    ensures Congruent(BalanceIn(Contents(Run(c, schedule).mem, c.job.width)(CustomerKey(customer))),
                      IntendedBalance(txns, values, Db(c), customer))
            <==> DeliveredTo(txns, values, Db(c), customer, |txns|) % WORD == 0
  {
    hide Run, Contents, TpccJob, TpccLane, WordIn, WideEnough, DeliveredTo, PaidBy, Finished, Db, Congruent;
    EpochBalance(c, schedule, txns, values, customer);
    MissesBy(BalanceIn(Contents(Run(c, schedule).mem, c.job.width)(CustomerKey(customer))),
      BalanceIn(Db(c)(CustomerKey(customer))) - PaidBy(txns, values, customer, |txns|),
      DeliveredTo(txns, values, Db(c), customer, |txns|));
  }

  lemma MissesBy(a: int, b: int, d: nat)
    requires Congruent(a, b)
    ensures Congruent(a, b + d) <==> d % WORD == 0
  {}

  // ------------------------------------------------------------------ a Delivery that fails

  /** A Delivery of ten orders of one line each, of customers 0 to 9. */
  function TenOrders(): Params {
    Delivery(seq(10, i requires 0 <= i < 10 => Delivered(i, i, i, [i])))
  }

  /** Order lines with an amount of 5, all other words zero. */
  function FiveEach(width: nat -> nat): Database {
    (k: Key) => seq(width(k.table), i requires 0 <= i < width(k.table) =>
                if k.table == ORDER_LINE && i == OL_AMOUNT then 5 else 0)
  }

  lemma {:induction false} DeliveredToFirst(values: nat -> Values, width: nat -> nat, n: nat)
    requires 0 < n <= 10 && WideEnough(width)
    ensures DeliveredIn([TenOrders()], values, FiveEach(width), TenOrders().entries, n, 0, 0) == 5
  {
    var txns, db, entries := [TenOrders()], FiveEach(width), TenOrders().entries;
    if n == 1 {
      assert LinesAmount(txns, values, db, [0], 1, 0) == 5 by {
        assert LinesAmount(txns, values, db, [0], 0, 0) == 0;
        assert LineAmount(txns, values, db, 0, 0) == 5;
      }
      assert entries[0] == Delivered(0, 0, 0, [0]);
      assert DeliveredIn(txns, values, db, entries, 0, 0, 0) == 0;
    } else {
      DeliveredToFirst(values, width, n - 1);
      assert entries[n - 1].customer == n - 1;
    }
  }

  /** That Delivery leaves customer 0 the balance 0, modulo the size of a word, where it should be 5. */
  lemma {:induction false} DeliveryIsNotAdded(values: nat -> Values, width: nat -> nat)
    requires WideEnough(width)
    ensures Fits(TenOrders())
    ensures IntendedBalance([TenOrders()], values, FiveEach(width), 0) == 5
    ensures WellFormed(TpccJob([TenOrders()], TpccLane([TenOrders()], values), width))
    ensures BalanceIn(SerialResult(TpccJob([TenOrders()], TpccLane([TenOrders()], values), width),
                                   FiveEach(width))(CustomerKey(0))) % WORD == 0
  {
    hide TpccJob, WellFormed, TpccLane, DeliveredIn, SerialResult;
    var txns, db := [TenOrders()], FiveEach(width);
    DroppedBalance(txns, values, width, db, 0);
    DeliveredToFirst(values, width, 10);
    assert DeliveredTo(txns, values, db, 0, 1) == 5 by { assert DeliveredTo(txns, values, db, 0, 0) == 0; }
    assert PaidBy(txns, values, 0, 1) == 0 by { assert PaidBy(txns, values, 0, 0) == 0; }
  }
}
