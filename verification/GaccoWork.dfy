/** What a GAccO transaction does under its locks: for every row that it lists it takes the lock, works
    on the row once and gives the lock back, as often as the row is listed, and nothing else. */
module GaccoWork {
  import opened Execution
  import opened GaccoTpcc
  import opened Locks
  import opened TpccTables

  /** What f finds in the acts, one after the other. */
  function Collect<T>(acts: seq<Act>, f: Act -> seq<T>): seq<T> {
    if acts == [] then [] else Collect(acts[..|acts| - 1], f) + f(acts[|acts| - 1])
  }

  lemma {:induction false} CollectConcat<T>(a: seq<Act>, b: seq<Act>, f: Act -> seq<T>)
    ensures Collect(a + b, f) == Collect(a, f) + Collect(b, f)
    decreases |b|
  {
    if b == [] {
      assert a + b == a;
    } else {
      var n := |b| - 1;
      CollectConcat(a, b[..n], f);
      assert (a + b)[..|a + b| - 1] == a + b[..n];
    }
  }

  lemma CollectOne<T>(a: Act, f: Act -> seq<T>)
    ensures Collect([a], f) == f(a)
  {
    assert [a][..0] == [];
  }

  lemma {:induction false} CollectThree<T>(a: Act, b: Act, c: Act, f: Act -> seq<T>)
    ensures Collect([a, b, c], f) == f(a) + f(b) + f(c)
  {
    CollectOne(a, f);
    CollectOne(b, f);
    CollectOne(c, f);
    CollectConcat([a], [b], f);
    CollectConcat([a] + [b], [c], f);
    assert [a, b, c] == [a] + [b] + [c];
  }

  /** What an act does to row k. */
  function OnRow(k: Key): Act -> seq<Kind> { (a: Act) => if a.key == k then [a.kind] else [] }

  /** The row of table t that an act works on. */
  function Worked(t: nat): Act -> seq<nat> {
    (a: Act) => if a.kind == Work && a.key.table == t then [a.key.row] else []
  }

  /** The kinds of the acts on row k, in order. */
  function ActsOn(acts: seq<Act>, k: Key): seq<Kind> { Collect(acts, OnRow(k)) }

  /** The rows of table t that are worked on, in order. */
  function WorkRows(acts: seq<Act>, t: nat): seq<nat> { Collect(acts, Worked(t)) }

  /** Taking the lock, working and giving the lock back, n times over. */
  function Sections(n: nat): seq<Kind> {
    if n == 0 then [] else Sections(n - 1) + [Acquire, Work, Release]
  }

  function Times(rows: seq<nat>, row: nat): nat {
    if rows == [] then 0 else Times(rows[..|rows| - 1], row) + if rows[|rows| - 1] == row then 1 else 0
  }

  lemma {:induction false} TimesConcat(a: seq<nat>, b: seq<nat>, row: nat)
    ensures Times(a + b, row) == Times(a, row) + Times(b, row)
    decreases |b|
  {
    if b == [] {
      assert a + b == a;
    } else {
      var n := |b| - 1;
      TimesConcat(a, b[..n], row);
      assert (a + b)[..|a + b| - 1] == a + b[..n];
    }
  }

  lemma {:induction false} MoreSections(m: nat, n: nat)
    ensures Sections(m + n) == Sections(m) + Sections(n)
  {
    if n > 0 {
      MoreSections(m, n - 1);
      assert Sections(m + (n - 1)) + [Acquire, Work, Release] == Sections(m + n);
    }
  }

  /** The acts are the sections of the rows of table t that are listed: each row is locked, worked on
      and unlocked once for every time that it is listed, and works are done in the listed order. */
  ghost predicate WorksOn(acts: seq<Act>, t: nat, rows: seq<nat>) {
    && WorkRows(acts, t) == rows
    && forall row: nat :: ActsOn(acts, Key(t, row)) == Sections(Times(rows, row))
  }

  lemma {:induction false} WorksConcat(a: seq<Act>, b: seq<Act>, t: nat, r: seq<nat>, q: seq<nat>)
    requires WorksOn(a, t, r) && WorksOn(b, t, q)
    ensures WorksOn(a + b, t, r + q)
  {
    hide Collect, Times, Sections;
    CollectConcat(a, b, Worked(t));
    forall row: nat ensures ActsOn(a + b, Key(t, row)) == Sections(Times(r + q, row)) {
      CollectConcat(a, b, OnRow(Key(t, row)));
      TimesConcat(r, q, row);
      MoreSections(Times(r, row), Times(q, row));
    }
  }

  // ------------------------------------------------------------------ the pieces of a transaction

  lemma OneTime(x: nat, row: nat)
    ensures Times([], row) == 0 && Times([x], row) == if x == row then 1 else 0
    ensures Sections(0) == [] && Sections(1) == [Acquire, Work, Release]
  {
    assert [x][..0] == [];
    assert Sections(1) == Sections(0) + [Acquire, Work, Release];
  }

  lemma {:induction false} NothingWorks(t: nat)
    ensures WorksOn([], t, [])
  {}

  lemma {:induction false} SectionWorks(table: nat, row: nat, u: nat, t: nat)
    ensures WorksOn(Section(table, row, u), t, RowIf(table, t, row))
  {
    hide Collect, Times, Sections;
    CollectThree(A(table, row, u), W(table, row, u), R(table, row, u), Worked(t));
    forall x: nat ensures ActsOn(Section(table, row, u), Key(t, x)) == Sections(Times(RowIf(table, t, row), x)) {
      CollectThree(A(table, row, u), W(table, row, u), R(table, row, u), OnRow(Key(t, x)));
      OneTime(row, x);
    }
  }

  lemma {:induction false} CollectSix<T>(a: Act, b: Act, c: Act, d: Act, e: Act, g: Act, f: Act -> seq<T>)
    ensures Collect([a, b, c, d, e, g], f) == f(a) + f(b) + f(c) + f(d) + f(e) + f(g)
  {
    hide Collect;
    CollectThree(a, b, c, f);
    CollectThree(d, e, g, f);
    CollectConcat([a, b, c], [d, e, g], f);
    assert [a, b, c, d, e, g] == [a, b, c] + [d, e, g];
  }

  /** Two locks of different tables, held at once, in either of the two orders that occur. */
  lemma {:induction false} TwoWork(s: seq<Act>, m: nat, x: nat, n: nat, y: nat, u: nat, t: nat)
    requires m != n
    requires s == [A(m, x, u), A(n, y, u), W(m, x, u), W(n, y, u), R(m, x, u), R(n, y, u)]
             || s == [A(m, x, u), W(m, x, u), A(n, y, u), W(n, y, u), R(m, x, u), R(n, y, u)]
    ensures WorksOn(s, t, RowIf(m, t, x) + RowIf(n, t, y))
  {
    hide Collect, Times, Sections, ActsOn;
    CollectSix(s[0], s[1], s[2], s[3], s[4], s[5], Worked(t));
    var rows := RowIf(m, t, x) + RowIf(n, t, y);
    assert rows == if t == m then [x] else if t == n then [y] else [];
    forall row: nat ensures ActsOn(s, Key(t, row)) == Sections(Times(rows, row)) {
      TwoOnRow(s, m, x, n, y, u, Key(t, row));
      OneTime(x, row);
      OneTime(y, row);
    }
  }

  lemma {:induction false} TwoOnRow(s: seq<Act>, m: nat, x: nat, n: nat, y: nat, u: nat, k: Key)
    requires m != n
    requires s == [A(m, x, u), A(n, y, u), W(m, x, u), W(n, y, u), R(m, x, u), R(n, y, u)]
             || s == [A(m, x, u), W(m, x, u), A(n, y, u), W(n, y, u), R(m, x, u), R(n, y, u)]
    ensures ActsOn(s, k) == if k == Key(m, x) || k == Key(n, y) then [Acquire, Work, Release] else []
  {
    hide Collect;
    CollectSix(s[0], s[1], s[2], s[3], s[4], s[5], OnRow(k));
  }

  lemma {:induction false} PaymentWorks(warehouse: nat, district: nat, customer: nat, u: nat, t: nat)
    ensures WorksOn(PaymentActs(warehouse, district, customer, u), t,
                    RowIf(WAREHOUSE, t, warehouse) + RowIf(DISTRICT, t, district) + RowIf(CUSTOMER, t, customer))
  {
    hide Collect, Times, Sections, ActsOn, PaymentActs;
    var s := PaymentActs(warehouse, district, customer, u);
    var rows := RowIf(WAREHOUSE, t, warehouse) + RowIf(DISTRICT, t, district) + RowIf(CUSTOMER, t, customer);
    assert rows == if t == WAREHOUSE then [warehouse] else if t == DISTRICT then [district]
                   else if t == CUSTOMER then [customer] else [];
    PaymentRows(warehouse, district, customer, u, t);
    forall row: nat ensures ActsOn(s, Key(t, row)) == Sections(Times(rows, row)) {
      PaymentOnRow(warehouse, district, customer, u, Key(t, row));
      OneTime(if t == WAREHOUSE then warehouse else if t == DISTRICT then district else customer, row);
    }
  }

  lemma {:induction false} PaymentRows(warehouse: nat, district: nat, customer: nat, u: nat, t: nat)
    ensures WorkRows(PaymentActs(warehouse, district, customer, u), t) ==
            if t == WAREHOUSE then [warehouse] else if t == DISTRICT then [district]
            else if t == CUSTOMER then [customer] else []
  {
    hide Collect;
    CollectNine(PaymentActs(warehouse, district, customer, u), Worked(t));
  }

  lemma {:induction false} PaymentOnRow(warehouse: nat, district: nat, customer: nat, u: nat, k: Key)
    ensures ActsOn(PaymentActs(warehouse, district, customer, u), k) ==
            if k in {Key(WAREHOUSE, warehouse), Key(DISTRICT, district), Key(CUSTOMER, customer)}
            then [Acquire, Work, Release] else []
  {
    hide Collect;
    CollectNine(PaymentActs(warehouse, district, customer, u), OnRow(k));
  }

  lemma {:induction false} CollectNine<T>(s: seq<Act>, f: Act -> seq<T>)
    requires |s| == 9
    ensures Collect(s, f) == f(s[0]) + f(s[1]) + f(s[2]) + f(s[3]) + f(s[4]) + f(s[5]) + f(s[6]) + f(s[7]) + f(s[8])
  {
    hide Collect;
    CollectSix(s[0], s[1], s[2], s[3], s[4], s[5], f);
    CollectThree(s[6], s[7], s[8], f);
    CollectConcat(s[..6], s[6..], f);
    assert s == s[..6] + s[6..] && s[..6] == [s[0], s[1], s[2], s[3], s[4], s[5]] && s[6..] == [s[6], s[7], s[8]];
  }

  lemma {:induction false} ItemWorks(mode: Mode, item: Item, u: nat, t: nat)
    ensures WorksOn(ItemActs(mode, item, u), t, ItemListed(mode, item, t))
  {
    hide WorksOn;
    if mode.useAtomic {
      NothingWorks(t);
      SectionWorks(STOCK, item.stock, u, t);
    } else {
      var pair := ItemActs(mode, item, u)[..6];
      TwoWork(pair, ORDER_LINE, item.orderLine, STOCK, item.stock, u, t);
      SectionWorks(ITEM, item.item, u, t);
      assert ItemActs(mode, item, u) == pair + Section(ITEM, item.item, u);
      WorksConcat(pair, Section(ITEM, item.item, u), t,
                  RowIf(ORDER_LINE, t, item.orderLine) + RowIf(STOCK, t, item.stock), RowIf(ITEM, t, item.item));
    }
  }

  lemma {:induction false} ItemsWork(mode: Mode, items: seq<Item>, u: nat, t: nat, n: nat)
    requires n <= |items|
    ensures WorksOn(ItemsActs(mode, items, u, n), t, ItemsListed(mode, items, t, n))
    decreases n
  {
    hide WorksOn, ItemActs;
    if n == 0 {
      NothingWorks(t);
    } else {
      ItemsWork(mode, items, u, t, n - 1);
      ItemWorks(mode, items[n - 1], u, t);
      WorksConcat(ItemsActs(mode, items, u, n - 1), ItemActs(mode, items[n - 1], u), t,
                  ItemsListed(mode, items, t, n - 1), ItemListed(mode, items[n - 1], t));
    }
  }

  lemma {:induction false} HeaderWorks(warehouse: nat, district: nat, customer: nat, newOrder: nat, order: nat, u: nat,
                                       t: nat)
    ensures WorksOn(HeaderActs(warehouse, district, customer, newOrder, order, u), t,
                    RowIf(WAREHOUSE, t, warehouse) + RowIf(DISTRICT, t, district) + RowIf(CUSTOMER, t, customer)
                    + (RowIf(NEW_ORDER, t, newOrder) + RowIf(ORDER, t, order)))
  {
    hide WorksOn, Section, RowIf;
    var w, d, c := Section(WAREHOUSE, warehouse, u), Section(DISTRICT, district, u), Section(CUSTOMER, customer, u);
    SectionWorks(WAREHOUSE, warehouse, u, t);
    SectionWorks(DISTRICT, district, u, t);
    SectionWorks(CUSTOMER, customer, u, t);
    TwoWork(OrderActs(newOrder, order, u), NEW_ORDER, newOrder, ORDER, order, u, t);
    WorksConcat(w, d, t, RowIf(WAREHOUSE, t, warehouse), RowIf(DISTRICT, t, district));
    WorksConcat(w + d, c, t, RowIf(WAREHOUSE, t, warehouse) + RowIf(DISTRICT, t, district),
      RowIf(CUSTOMER, t, customer));
    WorksConcat(w + d + c, OrderActs(newOrder, order, u), t,
                RowIf(WAREHOUSE, t, warehouse) + RowIf(DISTRICT, t, district) + RowIf(CUSTOMER, t, customer),
                RowIf(NEW_ORDER, t, newOrder) + RowIf(ORDER, t, order));
  }

  lemma {:induction false} NewOrderWorks(mode: Mode, txn: Txn, u: nat, t: nat)
    requires txn.NewOrder?
    ensures WorksOn(TxnActs(mode, txn, u), t, Listed(mode, txn, t))
  {
    hide WorksOn, TxnActs, Listed, ItemsActs, HeaderActs, ItemsListed, RowIf;
    NewOrderActs(mode, txn, u);
    NewOrderListed(mode, txn, t);
    ItemsWork(mode, txn.items, u, t, |txn.items|);
    var acts, listed := ItemsActs(mode, txn.items, u, |txn.items|), ItemsListed(mode, txn.items, t, |txn.items|);
    if mode.useAtomic {
      assert [] + acts == acts && [] + listed == listed;
    } else {
      HeaderWorks(txn.warehouse, txn.district, txn.customer, txn.newOrder, txn.order, u, t);
      WorksConcat(HeaderActs(txn.warehouse, txn.district, txn.customer, txn.newOrder, txn.order, u), acts, t,
                  HeaderListed(txn, t), listed);
    }
  }

  /** Under every setting a transaction works on exactly the rows that it lists, in that order, each
      time in a section of its own. */
  lemma {:induction false} TxnWorksOnWhatIsListed(mode: Mode, txn: Txn, u: nat, t: nat)
    ensures WorksOn(TxnActs(mode, txn, u), t, Listed(mode, txn, t))
  {
    match txn
    case Payment(warehouse, district, customer) =>
      NothingWorks(t);
      PaymentWorks(warehouse, district, customer, u, t);
      hide WorksOn;
    case NewOrder(_, _, _, _, _, _) => NewOrderWorks(mode, txn, u, t);
  }

  // ------------------------------------------------------------------ inside its section

  lemma {:induction false} SectionsShape(n: nat, j: nat)
    ensures |Sections(n)| == 3 * n
    ensures j < 3 * n ==> Sections(n)[j] == if j % 3 == 0 then Acquire else if j % 3 == 1 then Work else Release
  {
    if n > 0 { SectionsShape(n - 1, j); }
  }

  /** The j-th act on row k. */
  lemma {:induction false} FindAct(acts: seq<Act>, k: Key, j: nat) returns (g: nat)
    requires j < |ActsOn(acts, k)|
    ensures g < |acts| && acts[g].key == k && acts[g].kind == ActsOn(acts, k)[j] && |ActsOn(acts[..g], k)| == j
  {
    var n := |acts| - 1;
    if j < |ActsOn(acts[..n], k)| {
      g := FindAct(acts[..n], k, j);
      assert acts[..n][..g] == acts[..g];
    } else {
      g := n;
    }
  }

  lemma {:induction false} PlaceOfAct(acts: seq<Act>, k: Key, g: nat)
    requires g < |acts| && acts[g].key == k
    ensures |ActsOn(acts[..g], k)| < |ActsOn(acts, k)|
    ensures ActsOn(acts, k)[|ActsOn(acts[..g], k)|] == acts[g].kind
    decreases |acts|
  {
    var n := |acts| - 1;
    if g < n {
      PlaceOfAct(acts[..n], k, g);
      assert acts[..n][..g] == acts[..g];
    }
  }

  lemma {:induction false} FewerBefore(acts: seq<Act>, k: Key, g: nat, h: nat)
    requires g <= h <= |acts|
    ensures |ActsOn(acts[..g], k)| <= |ActsOn(acts[..h], k)|
    decreases h - g
  {
    if g < h {
      FewerBefore(acts, k, g, h - 1);
      assert acts[..h][..h - 1] == acts[..h - 1];
    } else {
      assert acts[..g] == acts[..h];
    }
  }

  /** Work on a row lies between the act that takes the row's lock and the one that gives it back, with
      no other act on the row between them. */
  lemma {:induction false} WorkIsInside(acts: seq<Act>, k: Key, n: nat, g: nat) returns (a: nat, r: nat)
    requires ActsOn(acts, k) == Sections(n) && g < |acts| && acts[g] == Act(Work, k, acts[g].unit)
    ensures a < g < r < |acts| && acts[a].kind == Acquire && acts[r].kind == Release
    ensures acts[a].key == acts[r].key == k
    ensures forall h: nat | a < h < r && h != g :: acts[h].key != k
  {
    hide Collect, Sections;
    var j := |ActsOn(acts[..g], k)|;
    PlaceOfAct(acts, k, g);
    SectionsShape(n, j);
    SectionsShape(n, j - 1);
    SectionsShape(n, j + 1);
    a := FindAct(acts, k, j - 1);
    r := FindAct(acts, k, j + 1);
    forall h: nat | h < |acts| && acts[h].key == k ensures |ActsOn(acts[..h + 1], k)| == |ActsOn(acts[..h], k)| + 1 {
      OneMoreOn(acts, k, h);
    }
    if g <= a { FewerBefore(acts, k, g, a); }
    if r <= g { FewerBefore(acts, k, r, g); }
    forall h: nat | a < h < r && h != g ensures acts[h].key != k {
      if acts[h].key == k {
        if h < g {
          FewerBefore(acts, k, a + 1, h);
          FewerBefore(acts, k, h + 1, g);
        } else {
          FewerBefore(acts, k, g + 1, h);
          FewerBefore(acts, k, h + 1, r);
        }
      }
    }
  }

  lemma OneMoreOn(acts: seq<Act>, k: Key, h: nat)
    requires h < |acts| && acts[h].key == k
    ensures |ActsOn(acts[..h + 1], k)| == |ActsOn(acts[..h], k)| + 1
  {
    assert acts[..h + 1][..h] == acts[..h];
  }
}
