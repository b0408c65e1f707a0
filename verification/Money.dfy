/** Consistency condition 3.3.2.1 of TPC-C: the year-to-date total of a warehouse is the sum of
    those of its districts, modulo the size of the counters, after every epoch. */
module Money {
  import opened Accesses
  import opened Execution
  import opened Machine
  import opened TpccTables
  import opened TpccSubmitter
  import opened TpccEpoch
  import opened TpccLanes
  import opened Epochs
  import opened SerialEquivalence

  /** The first access of transaction u. */
  function First(txns: seq<Params>, u: nat): nat
    requires u <= |txns|
  {
    |All(txns, u)|
  }

  /** What the executor's lanes compute for the two totals: a Payment adds its amount to both; a
      NewOrder, which writes the district row for the sake of the next order id, copies the
      total it has read. */
  ghost predicate LanesOk(txns: seq<Params>, amount: nat -> nat, lane: (nat, seq<Row>, nat) -> Word) {
    && (forall u: nat, w: Row | u < |txns| && txns[u].Payment? && |w| > W_YTD ::
          lane(First(txns, u) + 1, [w], W_YTD) == AddWord(w[W_YTD], amount(u)))
    && (forall u: nat, w: Row, d: Row | u < |txns| && txns[u].Payment? && |d| > D_YTD ::
          lane(First(txns, u) + 3, [w, d], D_YTD) == AddWord(d[D_YTD], amount(u)))
    && (forall u: nat, w: Row, d: Row | u < |txns| && txns[u].NewOrder? && |d| > D_YTD ::
          lane(First(txns, u) + 2, [w, d], D_YTD) == d[D_YTD])
  }

  ghost predicate WidthsOk(width: nat -> nat) {
    width(WAREHOUSE) > W_YTD && width(DISTRICT) > D_NEXT_O_ID
  }

  // ------------------------------------------------------------------ rows and sums

  function WarehouseKey(w: nat): Key { Key(WAREHOUSE, w) }
  function DistrictKey(d: nat): Key { Key(DISTRICT, d) }

  function DistrictTotal(db: Database, districts: seq<nat>): nat {
    if districts == [] then 0
    else DistrictTotal(db, districts[..|districts| - 1]) + WordIn(db(DistrictKey(districts[|districts| - 1])), D_YTD)
  }

  /** Every district belongs to one warehouse. */
  ghost predicate Partition(districts: nat -> seq<nat>) {
    && (forall w: nat, i: nat, j: nat | i < j < |districts(w)| :: districts(w)[i] != districts(w)[j])
    && (forall w: nat, w': nat, d: nat | w != w' && d in districts(w) :: d !in districts(w'))
  }

  /** A Payment is made in a district of its warehouse. */
  ghost predicate PaymentsOk(txns: seq<Params>, districts: nat -> seq<nat>) {
    forall u: nat | u < |txns| && txns[u].Payment? :: txns[u].district in districts(txns[u].warehouse)
  }

  ghost predicate Balanced(db: Database, districts: nat -> seq<nat>, w: nat) {
    (WordIn(db(WarehouseKey(w)), W_YTD) - DistrictTotal(db, districts(w))) % WORD == 0
  }

  lemma {:induction false} SameTotal(db: Database, db': Database, ds: seq<nat>)
    requires forall d | d in ds :: WordIn(db'(DistrictKey(d)), D_YTD) == WordIn(db(DistrictKey(d)), D_YTD)
    ensures DistrictTotal(db', ds) == DistrictTotal(db, ds)
    decreases |ds|
  {
    if ds != [] {
      assert forall d | d in ds[..|ds| - 1] :: d in ds;
      SameTotal(db, db', ds[..|ds| - 1]);
    }
  }

  /** One district's change is the sum's change. */
  lemma {:induction false} OneDistrictChanges(db: Database, db': Database, ds: seq<nat>, d: nat)
    requires d in ds && forall i: nat, j: nat | i < j < |ds| :: ds[i] != ds[j]
    requires forall e | e in ds && e != d :: WordIn(db'(DistrictKey(e)), D_YTD) == WordIn(db(DistrictKey(e)), D_YTD)
    ensures DistrictTotal(db', ds) == DistrictTotal(db, ds) + WordIn(db'(DistrictKey(d)),
            D_YTD) - WordIn(db(DistrictKey(d)), D_YTD)
    decreases |ds|
  {
    var n := |ds| - 1;
    if ds[n] == d {
      assert forall e | e in ds[..n] :: e in ds && e != d;
      SameTotal(db, db', ds[..n]);
    } else {
      assert d in ds[..n];
      assert forall e | e in ds[..n] :: e in ds;
      OneDistrictChanges(db, db', ds[..n], d);
    }
  }

  // ------------------------------------------------------------------ who writes the totals

  predicate IsTotal(k: Key) { k.table == WAREHOUSE || k.table == DISTRICT }

  /** Where a transaction writes warehouse or district rows. */
  predicate WritesTotalAt(t: Params, p: nat) {
    (t.Payment? && (p == 1 || p == 3)) || (t.NewOrder? && p == 2)
  }

  lemma {:induction false} ItemsWriteNoTotals(items: seq<Item>, n: nat, p: nat)
    requires n <= |items| && p < |ItemsProgram(items, n)|
    ensures ItemsProgram(items, n)[p].table != WAREHOUSE && ItemsProgram(items, n)[p].table != DISTRICT
  {
    if p < |ItemsProgram(items, n - 1)| { ItemsWriteNoTotals(items, n - 1, p); }
  }

  lemma {:induction false} LinesWriteNoTotals(lines: seq<nat>, i: nat, n: nat, p: nat)
    requires n <= |lines| && p < |LinesProgram(lines, i, n)|
    ensures LinesProgram(lines, i, n)[p].table == ORDER_LINE
  {
    if p < |LinesProgram(lines, i, n - 1)| { LinesWriteNoTotals(lines, i, n - 1, p); }
  }

  lemma {:induction false} EntriesWriteNoTotals(entries: seq<Delivered>, n: nat, p: nat)
    requires n <= |entries| && p < |EntriesProgram(entries, n)|
    ensures EntriesProgram(entries, n)[p].table != WAREHOUSE && EntriesProgram(entries, n)[p].table != DISTRICT
  {
    if p < |EntriesProgram(entries, n - 1)| {
      EntriesWriteNoTotals(entries, n - 1, p);
    } else {
      var e, q := entries[n - 1], p - |EntriesProgram(entries, n - 1)|;
      if 3 <= q < 3 + |LinesProgram(e.orderLines, n - 1, |e.orderLines|)| {
        LinesWriteNoTotals(e.orderLines, n - 1, |e.orderLines|, q - 3);
      }
    }
  }

  lemma {:induction false} ReadsWriteNoTotals(table: nat, rows: seq<nat>, first: nat, n: nat, p: nat)
    requires n <= |rows| && p < |Reads(table, rows, first, n)|
    ensures Reads(table, rows, first, n)[p].table == table
  {
    if p < |Reads(table, rows, first, n - 1)| { ReadsWriteNoTotals(table, rows, first, n - 1, p); }
  }

  lemma {:induction false} TotalsWritten(t: Params, p: nat)
    requires p < |Program(t)| && Program(t)[p].write && Program(t)[p].table in {WAREHOUSE, DISTRICT}
    ensures WritesTotalAt(t, p)
  {
    match t
    case NewOrder(_, _, _, _, _, items) => if p >= 6 { ItemsWriteNoTotals(items, |items|, p - 6); }
    case Payment(_, _, _) =>
    case OrderStatus(_, _, orderLines) => if p >= 2 { ReadsWriteNoTotals(ORDER_LINE, orderLines, 2, |orderLines|,
      p - 2); }
    case Delivery(entries) => EntriesWriteNoTotals(entries, |entries|, p);
    case StockLevel(stocks) => ReadsWriteNoTotals(STOCK, stocks, 0, |stocks|, p);
  }

  // ------------------------------------------------------------------ one transaction

  lemma {:induction false} OpAt(txns: seq<Params>, lane: (nat, seq<Row>, nat) -> Word, width: nat -> nat, u: nat,
                                p: nat)
    requires u < |txns| && p < |Program(txns[u])|
    ensures var j := TpccJob(txns, lane, width);
            && First(txns, u) + p < |j.ops|
            && j.ops[First(txns, u) + p] == Access(Key(Program(txns[u])[p].table, Program(txns[u])[p].row), u,
               Program(txns[u])[p].write)
  {
    AllPrefix(txns, u + 1, |txns|);
    hide Program;
    assert All(txns, u + 1) == All(txns, u) + Place(Program(txns[u]), u);
    assert All(txns, u + 1)[First(txns, u) + p] == Placed(u, Program(txns[u])[p]);
    hide All;
  }

  lemma {:induction false} JobShape(txns: seq<Params>, lane: (nat, seq<Row>, nat) -> Word, width: nat -> nat, u: nat)
    requires u < |txns|
    ensures var j := TpccJob(txns, lane, width);
            && WellFormed(j) && NumUnits(j) == |txns|
            && j.start[u] == First(txns, u) && j.start[u + 1] == First(txns, u) + |Program(txns[u])| <= |j.ops|
  {
    hide TpccJob, Program, First, All;
    TpccJobIsWellFormed(txns, lane, width);
    JobStarts(txns, lane, width, u);
    StartsInRange(TpccJob(txns, lane, width), u + 1);
  }

  lemma {:induction false} JobStarts(txns: seq<Params>, lane: (nat, seq<Row>, nat) -> Word, width: nat -> nat, u: nat)
    requires u < |txns|
    ensures var j := TpccJob(txns, lane, width);
            && |j.start| == |txns| + 1 && j.start[u] == First(txns, u)
            && j.start[u + 1] == First(txns, u) + |Program(txns[u])|
  {
    hide Program;
  }

  function Row0(j: Job, db: Database, u: nat, p: nat, k: Key): Row
    requires WellFormed(j) && u < NumUnits(j) && j.start[u] <= p <= j.start[u + 1]
  {
    Lookup(SerialRun(j, db, u, p).store, db, k)
  }

  lemma {:induction false} KeepsRow(j: Job, db: Database, u: nat, p: nat, q: nat, k: Key)
    requires WellFormed(j) && u < NumUnits(j) && j.start[u] <= p <= q <= j.start[u + 1] <= |j.ops|
    requires forall g: nat | p <= g < q :: !WritesAt(j.ops, k, g)
    ensures Row0(j, db, u, q, k) == Row0(j, db, u, p, k)
    decreases q - p
  {
    hide WellFormed, SerialOp, SerialRun, Lookup;
    if p < q {
      KeepsRow(j, db, u, p, q - 1, k);
      RunGoesOn(j, db, u, q);
      LookupAfterOp(j, db, SerialRun(j, db, u, q - 1), q - 1, k);
    }
  }

  /** A read hands the row on to the transaction. */
  lemma {:induction false} AfterRead(j: Job, db: Database, u: nat, g: nat, k: Key)
    requires WellFormed(j) && u < NumUnits(j) && j.start[u] <= g < j.start[u + 1] <= |j.ops| && !j.ops[g].write
    ensures SerialRun(j, db, u, g + 1).seen == SerialRun(j, db, u, g).seen + [Row0(j, db, u, g, j.ops[g].key)]
    ensures Row0(j, db, u, g + 1, k) == Row0(j, db, u, g, k)
  {
    hide WellFormed;
  }

  lemma {:induction false} AfterWrite(j: Job, db: Database, u: nat, g: nat, k: Key)
    requires WellFormed(j) && u < NumUnits(j) && j.start[u] <= g < j.start[u + 1] <= |j.ops| && j.ops[g].write
    ensures SerialRun(j, db, u, g + 1).seen == SerialRun(j, db, u, g).seen
    ensures Row0(j, db, u, g + 1, k) ==
            if k == j.ops[g].key then WrittenRow(j, g, SerialRun(j, db, u, g).seen) else Row0(j, db, u, g, k)
  {
    LookupAfterOp(j, db, SerialRun(j, db, u, g), g, k);
    hide WellFormed, WrittenRow;
  }

  /** The rows before a transaction. */
  function RowBefore(j: Job, db: Database, u: nat, k: Key): Row
    requires WellFormed(j) && u <= NumUnits(j)
  {
    Lookup(SerialStore(j, db, u), db, k)
  }

  lemma BeforeAndAfter(j: Job, db: Database, u: nat, k: Key)
    requires WellFormed(j) && u < NumUnits(j)
    ensures Row0(j, db, u, j.start[u], k) == RowBefore(j, db, u, k) && SerialRun(j, db, u, j.start[u]).seen == []
    ensures Row0(j, db, u, j.start[u + 1], k) == RowBefore(j, db, u + 1, k)
  {}

  /** Unit u performs the accesses from g to h, of which none writes a total from m on. */
  ghost predicate Quiet(j: Job, u: nat, g: nat, m: nat, h: nat) {
    && WellFormed(j) && u < NumUnits(j) && j.start[u] == g <= m <= h == j.start[u + 1] <= |j.ops|
    && forall i: nat | m <= i < h :: IsTotal(j.ops[i].key) ==> !j.ops[i].write
  }

  lemma {:induction false} QuietEnd(j: Job, db: Database, u: nat, g: nat, m: nat, h: nat, k: Key)
    requires Quiet(j, u, g, m, h) && IsTotal(k)
    ensures RowBefore(j, db, u + 1, k) == Row0(j, db, u, m, k)
  {
    BeforeAndAfter(j, db, u, k);
    assert forall i: nat | m <= i < h :: !WritesAt(j.ops, k, i);
    hide WellFormed, RowBefore, Row0;
    KeepsRow(j, db, u, m, h, k);
  }

  /** What a Payment does to warehouses and districts. */
  lemma {:induction false} PaymentSteps(j: Job, db: Database, u: nat, g: nat, h: nat, wk: Key, dk: Key, k: Key)
    requires Quiet(j, u, g, g + 4, h) && IsTotal(k) && wk != dk
    requires j.ops[g] == Access(wk, u, false) && j.ops[g + 1] == Access(wk, u, true)
    requires j.ops[g + 2] == Access(dk, u, false) && j.ops[g + 3] == Access(dk, u, true)
    ensures var w, d := RowBefore(j, db, u, wk), RowBefore(j, db, u, dk);
            RowBefore(j, db, u + 1, k) == if k == dk then WrittenRow(j, g + 3, [w, d])
                                          else if k == wk then WrittenRow(j, g + 1, [w])
                                          else RowBefore(j, db, u, k)
  {
    hide WellFormed, RowBefore, Row0, SerialRun, WrittenRow;
    BeforeAndAfter(j, db, u, wk);
    BeforeAndAfter(j, db, u, dk);
    BeforeAndAfter(j, db, u, k);
    QuietEnd(j, db, u, g, g + 4, h, k);
    AfterRead(j, db, u, g, k);
    AfterRead(j, db, u, g, dk);
    AfterWrite(j, db, u, g + 1, k);
    AfterWrite(j, db, u, g + 1, dk);
    AfterRead(j, db, u, g + 2, k);
    AfterWrite(j, db, u, g + 3, k);
    var w, d := RowBefore(j, db, u, wk), RowBefore(j, db, u, dk);
    assert SerialRun(j, db, u, g + 1).seen == [w];
    assert SerialRun(j, db, u, g + 3).seen == [w, d];
  }

  /** What a NewOrder does to them. */
  lemma {:induction false} NewOrderSteps(j: Job, db: Database, u: nat, g: nat, h: nat, wk: Key, dk: Key, k: Key)
    requires Quiet(j, u, g, g + 3, h) && IsTotal(k)
    requires j.ops[g] == Access(wk, u, false)
    requires j.ops[g + 1] == Access(dk, u, false) && j.ops[g + 2] == Access(dk, u, true)
    ensures var w, d := RowBefore(j, db, u, wk), RowBefore(j, db, u, dk);
            RowBefore(j, db, u + 1, k) == if k == dk then WrittenRow(j, g + 2, [w, d]) else RowBefore(j, db, u, k)
  {
    hide WellFormed, RowBefore, Row0, SerialRun, WrittenRow;
    BeforeAndAfter(j, db, u, wk);
    BeforeAndAfter(j, db, u, dk);
    BeforeAndAfter(j, db, u, k);
    QuietEnd(j, db, u, g, g + 3, h, k);
    AfterRead(j, db, u, g, k);
    AfterRead(j, db, u, g, dk);
    AfterRead(j, db, u, g + 1, k);
    AfterWrite(j, db, u, g + 2, k);
    var w, d := RowBefore(j, db, u, wk), RowBefore(j, db, u, dk);
    assert SerialRun(j, db, u, g + 2).seen == [w, d];
  }

  // ------------------------------------------------------------------ in the batch

  /** From access m of transaction u on, no total is written. */
  lemma {:induction false} QuietFrom(txns: seq<Params>, lane: (nat, seq<Row>, nat) -> Word, width: nat -> nat, u: nat,
                                     m: nat)
    requires u < |txns| && m <= |Program(txns[u])| && forall p: nat | m <= p < |Program(txns[u])| ::
             !WritesTotalAt(txns[u], p)
    ensures Quiet(TpccJob(txns, lane, width), u, First(txns, u), First(txns, u) + m,
            First(txns, u) + |Program(txns[u])|)
    ensures NumUnits(TpccJob(txns, lane, width)) == |txns|
  {
    hide TpccJob, First, Program, WellFormed;
    JobShape(txns, lane, width, u);
    forall p: nat | m <= p < |Program(txns[u])| ensures NoTotalWrite(TpccJob(txns, lane, width), First(txns, u), p) {
      NoTotalWriteAt(txns, lane, width, u, p);
    }
    NoTotalWritesQuiet(TpccJob(txns, lane, width), u, First(txns, u), m, |Program(txns[u])|);
  }

  ghost predicate NoTotalWrite(j: Job, g: nat, p: nat) {
    g + p < |j.ops| && (IsTotal(j.ops[g + p].key) ==> !j.ops[g + p].write)
  }

  lemma {:induction false} NoTotalWriteAt(txns: seq<Params>, lane: (nat, seq<Row>, nat) -> Word, width: nat -> nat,
                                          u: nat, p: nat)
    requires u < |txns| && p < |Program(txns[u])| && !WritesTotalAt(txns[u], p)
    ensures NoTotalWrite(TpccJob(txns, lane, width), First(txns, u), p)
  {
    hide TpccJob, First, Program;
    OpAt(txns, lane, width, u, p);
    if Program(txns[u])[p].write && Program(txns[u])[p].table in {WAREHOUSE, DISTRICT} { TotalsWritten(txns[u], p); }
  }

  lemma {:induction false} NoTotalWritesQuiet(j: Job, u: nat, g: nat, m: nat, n: nat)
    requires WellFormed(j) && u < NumUnits(j) && m <= n && j.start[u] == g && j.start[u + 1] == g + n <= |j.ops|
    requires forall p: nat | m <= p < n :: NoTotalWrite(j, g, p)
    ensures Quiet(j, u, g, g + m, g + n)
  {
    hide WellFormed;
    forall i: nat | g + m <= i < g + n ensures IsTotal(j.ops[i].key) ==> !j.ops[i].write {
      assert NoTotalWrite(j, g, i - g);
    }
  }

  lemma {:induction false} PaymentOps(txns: seq<Params>, lane: (nat, seq<Row>, nat) -> Word, width: nat -> nat, u: nat)
    requires u < |txns| && txns[u].Payment?
    ensures var j, g := TpccJob(txns, lane, width), First(txns, u);
            var wk, dk := WarehouseKey(txns[u].warehouse), DistrictKey(txns[u].district);
            && Quiet(j, u, g, g + 4, g + 6) && NumUnits(j) == |txns|
            && j.ops[g] == Access(wk, u, false) && j.ops[g + 1] == Access(wk, u, true)
            && j.ops[g + 2] == Access(dk, u, false) && j.ops[g + 3] == Access(dk, u, true)
  {
    hide TpccJob, First, Quiet;
    QuietFrom(txns, lane, width, u, 4);
    OpAt(txns, lane, width, u, 0);
    OpAt(txns, lane, width, u, 1);
    OpAt(txns, lane, width, u, 2);
    OpAt(txns, lane, width, u, 3);
  }

  lemma {:induction false} NewOrderOps(txns: seq<Params>, lane: (nat, seq<Row>, nat) -> Word, width: nat -> nat, u: nat)
    requires u < |txns| && txns[u].NewOrder?
    ensures var j, g := TpccJob(txns, lane, width), First(txns, u);
            var wk, dk := WarehouseKey(txns[u].warehouse), DistrictKey(txns[u].district);
            && Quiet(j, u, g, g + 3, g + |Program(txns[u])|) && NumUnits(j) == |txns| && g + 2 < |j.ops|
            && j.ops[g] == Access(wk, u, false)
            && j.ops[g + 1] == Access(dk, u, false) && j.ops[g + 2] == Access(dk, u, true)
  {
    hide TpccJob, First, Quiet;
    QuietFrom(txns, lane, width, u, 3);
    OpAt(txns, lane, width, u, 0);
    OpAt(txns, lane, width, u, 1);
    OpAt(txns, lane, width, u, 2);
  }

  // ------------------------------------------------------------------ the theorem

  function After(j: Job, db: Database, u: nat): Database
    requires WellFormed(j) && u <= NumUnits(j)
  {
    var store := SerialStore(j, db, u);
    k => Lookup(store, db, k)
  }

  lemma AfterIs(j: Job, db: Database, u: nat, k: Key)
    requires WellFormed(j) && u <= NumUnits(j)
    ensures After(j, db, u)(k) == RowBefore(j, db, u, k)
  {}

  /** The rows have their tables' widths. */
  ghost predicate Sized(db: Database, width: nat -> nat) {
    forall k :: |db(k)| == width(k.table)
  }

  /** Two databases agree on the totals but for one payment. */
  ghost predicate Paid(db: Database, db': Database, w: nat, d: nat, amount: nat) {
    && WordIn(db'(WarehouseKey(w)), W_YTD) == AddWord(WordIn(db(WarehouseKey(w)), W_YTD), amount)
    && WordIn(db'(DistrictKey(d)), D_YTD) == AddWord(WordIn(db(DistrictKey(d)), D_YTD), amount)
    && (forall v: nat | v != w :: WordIn(db'(WarehouseKey(v)), W_YTD) == WordIn(db(WarehouseKey(v)), W_YTD))
    && (forall e: nat | e != d :: WordIn(db'(DistrictKey(e)), D_YTD) == WordIn(db(DistrictKey(e)), D_YTD))
  }

  lemma AddModulo(a: int, b: nat, c: nat, d: int)
    requires (a - d) % WORD == 0
    ensures ((a + c) % WORD - (d + (b + c) % WORD - b)) % WORD == 0
  {}

  /** A payment keeps every warehouse balanced. */
  lemma {:induction false} PaymentBalances(db: Database, db': Database, districts: nat -> seq<nat>, w: nat, d: nat,
                                           amount: nat, v: nat)
    requires Partition(districts) && d in districts(w) && Paid(db, db', w, d, amount) && Balanced(db, districts, v)
    ensures Balanced(db', districts, v)
  {
    if v == w {
      OneDistrictChanges(db, db', districts(w), d);
      AddModulo(WordIn(db(WarehouseKey(w)), W_YTD), WordIn(db(DistrictKey(d)), D_YTD), amount,
        DistrictTotal(db, districts(w)));
    } else {
      assert d !in districts(v);
      SameTotal(db, db', districts(v));
    }
  }

  /** Two databases agree on all totals. */
  ghost predicate Kept(db: Database, db': Database) {
    && (forall v: nat :: WordIn(db'(WarehouseKey(v)), W_YTD) == WordIn(db(WarehouseKey(v)), W_YTD))
    && (forall e: nat :: WordIn(db'(DistrictKey(e)), D_YTD) == WordIn(db(DistrictKey(e)), D_YTD))
  }

  lemma {:induction false} KeptBalances(db: Database, db': Database, districts: nat -> seq<nat>, v: nat)
    requires Kept(db, db') && Balanced(db, districts, v)
    ensures Balanced(db', districts, v)
  {
    SameTotal(db, db', districts(v));
  }

  lemma {:induction false} RowsSized(j: Job, db: Database, u: nat, k: Key)
    requires WellFormed(j) && u <= NumUnits(j) && Sized(db, j.width)
    ensures |RowBefore(j, db, u, k)| == WidthOf(j, k)
  {
    if u > 0 {
      StartsInRange(j, u);
      StoreIsLastWrite(j, db, u - 1, j.start[u], k);
      hide WellFormed, SerialRun;
    }
  }

  lemma {:induction false} PaymentAfter(txns: seq<Params>, lane: (nat, seq<Row>, nat) -> Word, width: nat -> nat,
                                        db: Database, u: nat, k: Key)
    requires u < |txns| && txns[u].Payment? && IsTotal(k)
    requires WellFormed(TpccJob(txns, lane, width)) && NumUnits(TpccJob(txns, lane, width)) == |txns|
    ensures var j, g := TpccJob(txns, lane, width), First(txns, u);
            var wk, dk := WarehouseKey(txns[u].warehouse), DistrictKey(txns[u].district);
            var w, d := After(j, db, u)(wk), After(j, db, u)(dk);
            g + 3 < |j.ops| && j.ops[g + 1].key == wk && j.ops[g + 3].key == dk &&
            After(j, db, u + 1)(k) == if k == dk then WrittenRow(j, g + 3, [w, d])
                                      else if k == wk then WrittenRow(j, g + 1, [w])
                                      else After(j, db, u)(k)
  {
    hide TpccJob, First, WellFormed, RowBefore, NumUnits, After, WrittenRow;
    var j, g := TpccJob(txns, lane, width), First(txns, u);
    var wk, dk := WarehouseKey(txns[u].warehouse), DistrictKey(txns[u].district);
    PaymentOps(txns, lane, width, u);
    AfterIs(j, db, u, wk);
    AfterIs(j, db, u, dk);
    AfterIs(j, db, u, k);
    AfterIs(j, db, u + 1, k);
    PaymentSteps(j, db, u, g, g + 6, wk, dk, k);
  }

  lemma {:induction false} AfterSized(j: Job, db: Database, u: nat, k: Key)
    requires WellFormed(j) && u <= NumUnits(j) && Sized(db, j.width)
    ensures |After(j, db, u)(k)| == WidthOf(j, k)
  {
    RowsSized(j, db, u, k);
    AfterIs(j, db, u, k);
  }

  /** A written row's words are what the lanes compute. */
  lemma WrittenWord(j: Job, g: nat, seen: seq<Row>, i: nat)
    requires g < |j.ops| && i < WidthOf(j, j.ops[g].key)
    ensures WordIn(WrittenRow(j, g, seen), i) == j.lane(g, seen, i)
  {}

  lemma {:induction false} PaymentWords(txns: seq<Params>, lane: (nat, seq<Row>, nat) -> Word, width: nat -> nat,
                                        amount: nat -> nat, db: Database, u: nat)
    requires u < |txns| && txns[u].Payment? && LanesOk(txns, amount, lane) && WidthsOk(width) && Sized(db, width)
    requires WellFormed(TpccJob(txns, lane, width)) && NumUnits(TpccJob(txns, lane, width)) == |txns|
    ensures var j := TpccJob(txns, lane, width);
            var wk, dk := WarehouseKey(txns[u].warehouse), DistrictKey(txns[u].district);
            && WordIn(After(j, db, u + 1)(wk), W_YTD) == AddWord(WordIn(After(j, db, u)(wk), W_YTD), amount(u))
            && WordIn(After(j, db, u + 1)(dk), D_YTD) == AddWord(WordIn(After(j, db, u)(dk), D_YTD), amount(u))
  {
    var j, g := TpccJob(txns, lane, width), First(txns, u);
    var wk, dk := WarehouseKey(txns[u].warehouse), DistrictKey(txns[u].district);
    assert j.lane == lane && j.width == width;
    hide TpccJob, First, WellFormed, NumUnits, After, WrittenRow;
    var w, d := After(j, db, u)(wk), After(j, db, u)(dk);
    AfterSized(j, db, u, wk);
    AfterSized(j, db, u, dk);
    hide Sized;
    assert lane(g + 1, [w], W_YTD) == AddWord(w[W_YTD], amount(u));
    assert lane(g + 3, [w, d], D_YTD) == AddWord(d[D_YTD], amount(u));
    hide LanesOk, AddWord;
    PaymentAfter(txns, lane, width, db, u, wk);
    PaymentAfter(txns, lane, width, db, u, dk);
    WrittenWord(j, g + 1, [w], W_YTD);
    WrittenWord(j, g + 3, [w, d], D_YTD);
  }

  lemma {:induction false} PaymentIsPaid(txns: seq<Params>, lane: (nat, seq<Row>, nat) -> Word, width: nat -> nat,
                                         amount: nat -> nat, db: Database, u: nat)
    requires u < |txns| && txns[u].Payment? && LanesOk(txns, amount, lane) && WidthsOk(width) && Sized(db, width)
    requires WellFormed(TpccJob(txns, lane, width)) && NumUnits(TpccJob(txns, lane, width)) == |txns|
    ensures Paid(After(TpccJob(txns, lane, width), db, u), After(TpccJob(txns, lane, width), db, u + 1),
                 txns[u].warehouse, txns[u].district, amount(u))
  {
    hide TpccJob, First, WellFormed, NumUnits, After, Sized, WrittenRow, LanesOk, WordIn, AddWord;
    var j := TpccJob(txns, lane, width);
    PaymentWords(txns, lane, width, amount, db, u);
    forall v: nat | v != txns[u].warehouse ensures After(j, db, u + 1)(WarehouseKey(v)) ==
           After(j, db, u)(WarehouseKey(v)) {
      PaymentAfter(txns, lane, width, db, u, WarehouseKey(v));
    }
    forall e: nat | e != txns[u].district ensures After(j, db, u + 1)(DistrictKey(e)) ==
           After(j, db, u)(DistrictKey(e)) {
      PaymentAfter(txns, lane, width, db, u, DistrictKey(e));
    }
  }

  lemma {:induction false} NewOrderAfter(txns: seq<Params>, lane: (nat, seq<Row>, nat) -> Word, width: nat -> nat,
                                         db: Database, u: nat, k: Key)
    requires u < |txns| && txns[u].NewOrder? && IsTotal(k)
    requires WellFormed(TpccJob(txns, lane, width)) && NumUnits(TpccJob(txns, lane, width)) == |txns|
    ensures var j, g := TpccJob(txns, lane, width), First(txns, u);
            var wk, dk := WarehouseKey(txns[u].warehouse), DistrictKey(txns[u].district);
            var w, d := After(j, db, u)(wk), After(j, db, u)(dk);
            g + 2 < |j.ops| && j.ops[g + 2].key == dk &&
            After(j, db, u + 1)(k) == if k == dk then WrittenRow(j, g + 2, [w, d]) else After(j, db, u)(k)
  {
    hide TpccJob, First, WellFormed, RowBefore, NumUnits, After, WrittenRow, Program;
    var j, g := TpccJob(txns, lane, width), First(txns, u);
    var wk, dk := WarehouseKey(txns[u].warehouse), DistrictKey(txns[u].district);
    NewOrderOps(txns, lane, width, u);
    AfterIs(j, db, u, wk);
    AfterIs(j, db, u, dk);
    AfterIs(j, db, u, k);
    AfterIs(j, db, u + 1, k);
    NewOrderSteps(j, db, u, g, g + |Program(txns[u])|, wk, dk, k);
  }

  lemma {:induction false} NewOrderWord(txns: seq<Params>, lane: (nat, seq<Row>, nat) -> Word, width: nat -> nat,
                                        amount: nat -> nat, db: Database, u: nat)
    requires u < |txns| && txns[u].NewOrder? && LanesOk(txns, amount, lane) && WidthsOk(width) && Sized(db, width)
    requires WellFormed(TpccJob(txns, lane, width)) && NumUnits(TpccJob(txns, lane, width)) == |txns|
    ensures var j, dk := TpccJob(txns, lane, width), DistrictKey(txns[u].district);
            WordIn(After(j, db, u + 1)(dk), D_YTD) == WordIn(After(j, db, u)(dk), D_YTD)
  {
    var j, g := TpccJob(txns, lane, width), First(txns, u);
    var wk, dk := WarehouseKey(txns[u].warehouse), DistrictKey(txns[u].district);
    assert j.lane == lane && j.width == width;
    hide TpccJob, First, WellFormed, NumUnits, After, WrittenRow;
    var w, d := After(j, db, u)(wk), After(j, db, u)(dk);
    AfterSized(j, db, u, dk);
    hide Sized;
    assert lane(g + 2, [w, d], D_YTD) == d[D_YTD];
    hide LanesOk;
    NewOrderAfter(txns, lane, width, db, u, dk);
    WrittenWord(j, g + 2, [w, d], D_YTD);
  }

  lemma {:induction false} NewOrderIsKept(txns: seq<Params>, lane: (nat, seq<Row>, nat) -> Word, width: nat -> nat,
                                          amount: nat -> nat, db: Database, u: nat)
    requires u < |txns| && txns[u].NewOrder? && LanesOk(txns, amount, lane) && WidthsOk(width) && Sized(db, width)
    requires WellFormed(TpccJob(txns, lane, width)) && NumUnits(TpccJob(txns, lane, width)) == |txns|
    ensures Kept(After(TpccJob(txns, lane, width), db, u), After(TpccJob(txns, lane, width), db, u + 1))
  {
    hide TpccJob, First, WellFormed, NumUnits, After, Sized, WrittenRow, LanesOk, WordIn;
    var j := TpccJob(txns, lane, width);
    NewOrderWord(txns, lane, width, amount, db, u);
    forall v: nat ensures After(j, db, u + 1)(WarehouseKey(v)) == After(j, db, u)(WarehouseKey(v)) {
      NewOrderAfter(txns, lane, width, db, u, WarehouseKey(v));
    }
    forall e: nat | e != txns[u].district ensures After(j, db, u + 1)(DistrictKey(e)) ==
           After(j, db, u)(DistrictKey(e)) {
      NewOrderAfter(txns, lane, width, db, u, DistrictKey(e));
    }
  }

  lemma {:induction false} OthersAreKept(txns: seq<Params>, lane: (nat, seq<Row>, nat) -> Word, width: nat -> nat,
                                         db: Database, u: nat)
    requires u < |txns| && !txns[u].Payment? && !txns[u].NewOrder?
    requires WellFormed(TpccJob(txns, lane, width)) && NumUnits(TpccJob(txns, lane, width)) == |txns|
    ensures Kept(After(TpccJob(txns, lane, width), db, u), After(TpccJob(txns, lane, width), db, u + 1))
  {
    hide TpccJob, First, WellFormed, RowBefore, NumUnits, After, Program;
    var j, g, h := TpccJob(txns, lane, width), First(txns, u), First(txns, u) + |Program(txns[u])|;
    QuietFrom(txns, lane, width, u, 0);
    forall k | IsTotal(k) ensures After(j, db, u)(k) == After(j, db, u + 1)(k) {
      AfterIs(j, db, u, k);
      AfterIs(j, db, u + 1, k);
      BeforeAndAfter(j, db, u, k);
      QuietEnd(j, db, u, g, g, h, k);
    }
  }

  /** The balance survives one transaction. */
  lemma {:induction false} OneTxnBalances(txns: seq<Params>, lane: (nat, seq<Row>, nat) -> Word, width: nat -> nat,
                                          amount: nat -> nat, db: Database, districts: nat -> seq<nat>, u: nat, v: nat)
    requires u < |txns| && LanesOk(txns, amount, lane) && WidthsOk(width) && Sized(db, width)
    requires WellFormed(TpccJob(txns, lane, width)) && NumUnits(TpccJob(txns, lane, width)) == |txns|
    requires Partition(districts) && PaymentsOk(txns, districts)
    requires Balanced(After(TpccJob(txns, lane, width), db, u), districts, v)
    ensures Balanced(After(TpccJob(txns, lane, width), db, u + 1), districts, v)
  {
    var j := TpccJob(txns, lane, width);
    hide TpccJob, WellFormed, NumUnits, After, LanesOk, WidthsOk, Sized, Partition, Balanced, Kept, Paid;
    if txns[u].Payment? {
      PaymentIsPaid(txns, lane, width, amount, db, u);
      PaymentBalances(After(j, db, u), After(j, db, u + 1), districts, txns[u].warehouse, txns[u].district, amount(u),
        v);
    } else {
      if txns[u].NewOrder? {
        NewOrderIsKept(txns, lane, width, amount, db, u);
      } else {
        OthersAreKept(txns, lane, width, db, u);
      }
      KeptBalances(After(j, db, u), After(j, db, u + 1), districts, v);
    }
  }

  lemma NothingHasRun(j: Job, db: Database)
    requires WellFormed(j)
    ensures forall k :: After(j, db, 0)(k) == db(k)
  {}

  lemma OneUnitEach(txns: seq<Params>, lane: (nat, seq<Row>, nat) -> Word, width: nat -> nat)
    ensures WellFormed(TpccJob(txns, lane, width)) && NumUnits(TpccJob(txns, lane, width)) == |txns|
  {
    TpccJobIsWellFormed(txns, lane, width);
    hide WellFormed, All;
  }

  /** Transaction by transaction every warehouse stays balanced. */
  lemma {:induction false} BatchBalances(txns: seq<Params>, lane: (nat, seq<Row>, nat) -> Word, width: nat -> nat,
                                         amount: nat -> nat, db: Database, districts: nat -> seq<nat>, u: nat, v: nat)
    requires u <= |txns| && LanesOk(txns, amount, lane) && WidthsOk(width) && Sized(db, width)
    requires Partition(districts) && PaymentsOk(txns, districts) && Balanced(db, districts, v)
    ensures WellFormed(TpccJob(txns, lane, width)) && NumUnits(TpccJob(txns, lane, width)) == |txns|
    ensures Balanced(After(TpccJob(txns, lane, width), db, u), districts, v)
    decreases u
  {
    OneUnitEach(txns, lane, width);
    hide TpccJob, WellFormed, NumUnits, After, LanesOk, WidthsOk, Sized, Partition, Balanced, PaymentsOk;
    if u == 0 {
      NothingHasRun(TpccJob(txns, lane, width), db);
      KeptBalances(db, After(TpccJob(txns, lane, width), db, 0), districts, v);
    } else {
      BatchBalances(txns, lane, width, amount, db, districts, u - 1, v);
      OneTxnBalances(txns, lane, width, amount, db, districts, u - 1, v);
    }
  }

  /** The executor's lanes do that. */
  lemma {:induction false} ExecutorsLanesOk(txns: seq<Params>, values: nat -> Values)
    ensures LanesOk(txns, Amounts(values), TpccLane(txns, values))
  {
    var lane := TpccLane(txns, values);
    hide TpccLane, First, Amounts, AddWord;
    forall u: nat, w: Row | u < |txns| && txns[u].Payment? && |w| > W_YTD
      ensures lane(First(txns, u) + 1, [w], W_YTD) == AddWord(w[W_YTD], Amounts(values)(u))
    {
      WarehouseLane(txns, values, u, w);
    }
    forall u: nat, w: Row, d: Row | u < |txns| && txns[u].Payment? && |d| > D_YTD
      ensures lane(First(txns, u) + 3, [w, d], D_YTD) == AddWord(d[D_YTD], Amounts(values)(u))
    {
      DistrictLane(txns, values, u, w, d);
    }
    forall u: nat, w: Row, d: Row | u < |txns| && txns[u].NewOrder? && |d| > D_YTD
      ensures lane(First(txns, u) + 2, [w, d], D_YTD) == d[D_YTD]
    {
      CopyingLane(txns, values, u, w, d);
    }
  }

  lemma {:induction false} TotalsTouched(t: Params)
    ensures t.Payment? ==> |Program(t)| == 6 && Program(t)[1] == Touch(WAREHOUSE, t.warehouse, true, 1)
                           && Program(t)[3] == Touch(DISTRICT, t.district, true, 3)
    ensures t.NewOrder? ==> |Program(t)| > 2 && Program(t)[2] == Touch(DISTRICT, t.district, true, NO_DISTRICT_WRITE)
  {
    hide ItemsProgram, EntriesProgram, Reads;
  }

  lemma {:induction false} WarehouseLane(txns: seq<Params>, values: nat -> Values, u: nat, w: Row)
    requires u < |txns| && txns[u].Payment? && |w| > W_YTD
    ensures TpccLane(txns, values)(First(txns, u) + 1, [w], W_YTD) == AddWord(w[W_YTD], Amounts(values)(u))
  {
    hide LaneAdding, All, Program, AddWord, Accumulated;
    TotalsTouched(txns[u]);
    LaneOf(txns, values, C_BALANCE, u, 1, [w], W_YTD);
  }

  lemma {:induction false} DistrictLane(txns: seq<Params>, values: nat -> Values, u: nat, w: Row, d: Row)
    requires u < |txns| && txns[u].Payment? && |d| > D_YTD
    ensures TpccLane(txns, values)(First(txns, u) + 3, [w, d], D_YTD) == AddWord(d[D_YTD], Amounts(values)(u))
  {
    hide LaneAdding, All, Program, AddWord, Accumulated;
    TotalsTouched(txns[u]);
    LaneOf(txns, values, C_BALANCE, u, 3, [w, d], D_YTD);
  }

  lemma {:induction false} CopyingLane(txns: seq<Params>, values: nat -> Values, u: nat, w: Row, d: Row)
    requires u < |txns| && txns[u].NewOrder? && |d| > D_YTD
    ensures TpccLane(txns, values)(First(txns, u) + 2, [w, d], D_YTD) == d[D_YTD]
  {
    hide LaneAdding, All, Program, NewQuantity, Accumulated;
    TotalsTouched(txns[u]);
    LaneOf(txns, values, C_BALANCE, u, 2, [w, d], D_YTD);
  }

  function Amounts(values: nat -> Values): nat -> nat {
    (u: nat) => values(u).paymentAmount
  }

  lemma {:induction false} SerialBalances(txns: seq<Params>, values: nat -> Values, width: nat -> nat,
                                          db: Database, districts: nat -> seq<nat>, v: nat)
    requires WidthsOk(width) && Sized(db, width)
    requires Partition(districts) && PaymentsOk(txns, districts) && Balanced(db, districts, v)
    ensures WellFormed(TpccJob(txns, TpccLane(txns, values), width))
    ensures Balanced(SerialResult(TpccJob(txns, TpccLane(txns, values), width), db), districts, v)
  {
    hide TpccLane, Sized, TpccJob, WellFormed, LanesOk, SerialStore;
    var lane := TpccLane(txns, values);
    var j := TpccJob(txns, lane, width);
    ExecutorsLanesOk(txns, values);
    BatchBalances(txns, lane, width, Amounts(values), db, districts, |txns|, v);
    assert forall k :: SerialResult(j, db)(k) == After(j, db, |txns|)(k);
    KeptBalances(After(j, db, |txns|), SerialResult(j, db), districts, v);
  }

  lemma ContentsSized(m: Memory, width: nat -> nat)
    ensures Sized(Contents(m, width), width)
  {}

  /** Money consistency: if memory holds balanced totals before an epoch, it does after every
      interleaving of the epoch. */
  lemma {:induction false} EpochBalances(c: Config, schedule: seq<nat>, txns: seq<Params>, values: nat -> Values,
                                         districts: nat -> seq<nat>, v: nat)
    requires Ready(c) && c.job == TpccJob(txns, TpccLane(txns, values), c.job.width) && WidthsOk(c.job.width)
    requires forall i | 0 <= i < |schedule| :: schedule[i] < NumUnits(c.job)
    requires Finished(c, Run(c, schedule))
    requires Partition(districts) && PaymentsOk(txns, districts)
    requires Balanced(Contents(c.begin, c.job.width), districts, v)
    ensures Balanced(Contents(Run(c, schedule).mem, c.job.width), districts, v)
  {
    EpochIsSerial(c, schedule);
    ContentsSized(c.begin, c.job.width);
    SerialBalances(txns, values, c.job.width, Db(c), districts, v);
    hide Ready, Run, Contents, TpccJob, TpccLane, SerialResult;
    KeptBalances(SerialResult(c.job, Db(c)), Contents(Run(c, schedule).mem, c.job.width), districts, v);
  }

  /** Epoch e runs the e-th batch of TPC-C transactions. */
  ghost predicate RunsBatches(runs: seq<EpochRun>, batches: seq<seq<Params>>, values: (nat, nat) -> Values,
                              width: nat -> nat, districts: nat -> seq<nat>) {
    && |runs| == |batches|
    && forall e: nat | e < |runs| ::
         runs[e].job == TpccJob(batches[e], TpccLane(batches[e], OfEpoch(values, e)), width)
           && PaymentsOk(batches[e], districts)
  }

  function OfEpoch(values: (nat, nat) -> Values, e: nat): nat -> Values {
    (u: nat) => values(e, u)
  }

  /** One more epoch of a run. */
  lemma {:induction false} NextEpochBalances(m: Memory, runs: seq<EpochRun>, batches: seq<seq<Params>>,
                                             values: (nat, nat) -> Values, width: nat -> nat,
                                             districts: nat -> seq<nat>, e: nat, v: nat)
    requires Epochs.AllPlanned(runs, width) && e < |runs| && WidthsOk(width)
    requires HandOff(MemoryAfter(m, runs, width, e), e + 1) && Completed(m, runs, width, e + 1)
    requires RunsBatches(runs, batches, values, width, districts) && Partition(districts)
    requires Balanced(Contents(MemoryAfter(m, runs, width, e), width), districts, v)
    ensures Balanced(Contents(MemoryAfter(m, runs, width, e + 1), width), districts, v)
  {
    var c := ConfigOf(runs[e], e + 1, MemoryAfter(m, runs, width, e));
    assert Planned(runs[e], width);
    assert Ready(c) && c.job.width == width;
    assert c.job == TpccJob(batches[e], TpccLane(batches[e], OfEpoch(values, e)), width);
    assert PaymentsOk(batches[e], districts);
    assert MemoryAfter(m, runs, width, e + 1) == Run(c, runs[e].schedule).mem;
    hide RunsBatches, Planned, WellFormed, Ready, HandOff, Run, Contents, TpccJob, TpccLane, Partition, PaymentsOk;
    hide Balanced, Finished, WidthsOk, MemoryAfter;
    EpochBalances(c, runs[e].schedule, batches[e], OfEpoch(values, e), districts, v);
  }

  /** And so over any number of epochs, in every interleaving of each. */
  lemma {:induction false} RunBalances(m: Memory, runs: seq<EpochRun>, batches: seq<seq<Params>>,
                                       values: (nat, nat) -> Values, width: nat -> nat, districts: nat -> seq<nat>,
                                       e: nat, v: nat)
    requires Epochs.AllPlanned(runs, width) && e <= |runs| && HandOff(m, 1) && WidthsOk(width)
    requires forall i | 0 < i <= e :: Completed(m, runs, width, i)
    requires RunsBatches(runs, batches, values, width, districts) && Partition(districts)
    requires Balanced(Contents(m, width), districts, v)
    ensures Balanced(Contents(MemoryAfter(m, runs, width, e), width), districts, v)
    decreases e
  {
    hide RunsBatches, Planned, HandOff, Run, Contents, Partition, Balanced, Finished, WidthsOk, Completed, SerialAfter;
    if e > 0 {
      RunBalances(m, runs, batches, values, width, districts, e - 1, v);
      RunIsSerial(m, runs, width, e - 1);
      NextEpochBalances(m, runs, batches, values, width, districts, e - 1, v);
    }
  }
}
