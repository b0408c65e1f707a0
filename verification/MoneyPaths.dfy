/** Three ways to make the same Payments: Epic's versioned epoch, GAccO's locks, and GAccO's atomic
    additions.  In every interleaving of each, every total and counter ends with the same word. */
module MoneyPaths {
  import opened AtomicMoney
  import opened EpochWords
  import opened Execution
  import opened Footprints
  import opened GaccoWork
  import opened LockPrograms
  import opened LockSafety
  import opened Locks
  import opened Machine
  import opened TpccLanes
  import opened TpccTables
  import opened TpccWords
  import Epic = TpccSubmitter
  import Gacco = GaccoTpcc
  import SerialEquivalence
  import StockPaths

  /** Where a counter is in the database. */
  function KeyOf(k: Counter): Key {
    match k
    case WarehouseYtd(row) => Key(WAREHOUSE, row)
    case DistrictYtd(row) => Key(DISTRICT, row)
    case Balance(row) => Key(CUSTOMER, row)
    case YtdPayment(row) => Key(CUSTOMER, row)
    case PaymentCount(row) => Key(CUSTOMER, row)
  }

  function WordNumber(k: Counter): nat {
    match k
    case WarehouseYtd(_) => W_YTD
    case DistrictYtd(_) => D_YTD
    case Balance(_) => C_BALANCE
    case YtdPayment(_) => C_YTD_PAYMENT
    case PaymentCount(_) => C_PAYMENT_CNT
  }

  function AmountsOf(values: nat -> Values): nat -> nat { (u: nat) => values(u).paymentAmount }

  // ------------------------------------------------------------------ by atomic additions

  lemma UpdatesChange(t: Epic.Params, v: Values, k: Counter)
    ensures var xs := Updates(t, v.paymentAmount); Added(xs, |xs|, k) == TxnChange(t, v, KeyOf(k), WordNumber(k))
  {
    hide Updates, Added, EntriesOf;
    AddedByPayment(t, v.paymentAmount, k);
  }

  lemma {:induction false} AddedIsChange(r: WordRun, pc: seq<nat>, m: nat, k: Counter)
    requires m <= |r.txns| && PcsOk(r.txns, AmountsOf(r.values), pc)
    requires forall u: nat | u < |r.txns| :: pc[u] == |Updates(r.txns[u], AmountsOf(r.values)(u))|
    ensures AddedBy(r.txns, AmountsOf(r.values), pc, m, k) == Change(r, KeyOf(k), WordNumber(k), m)
    decreases m
  {
    hide Updates, Added, PcsOk, Change, TxnChange, IsTotal;
    NoChange(r, KeyOf(k), WordNumber(k));
    if m > 0 {
      AddedIsChange(r, pc, m - 1, k);
      UpdatesChange(r.txns[m - 1], r.values(m - 1), k);
      CounterIsTotal(k);
      ChangeStep(r, KeyOf(k), WordNumber(k), m - 1);
    }
  }

  lemma CounterIsTotal(k: Counter)
    ensures IsTotal(KeyOf(k), WordNumber(k))
  {}

  /** A finished run of the atomic mode leaves in every counter what it was, changed by all Payments. */
  lemma {:induction false} AtomicTotalIs(r: WordRun, begin: Counter -> nat, schedule: seq<nat>, k: Counter)
    requires forall i | 0 <= i < |schedule| :: schedule[i] < |r.txns|
    requires Words32(begin)
    requires AllUpdated(r.txns, AmountsOf(r.values), TotalsRun(r.txns, AmountsOf(r.values), begin, schedule))
    ensures WordOf(TotalsRun(r.txns, AmountsOf(r.values), begin, schedule).words, begin, k) ==
            (begin(k) + Change(r, KeyOf(k), WordNumber(k), |r.txns|)) % WORD
  {
    hide TotalsRun, TotalsInv, Words32, WordOf, Change, AddedBy, Updates;
    var s := TotalsRun(r.txns, AmountsOf(r.values), begin, schedule);
    TotalsRunKeepsInv(r.txns, AmountsOf(r.values), begin, schedule);
    InvWord(r.txns, AmountsOf(r.values), begin, s, k);
    AddedIsChange(r, s.pc, |r.txns|, k);
  }

  // ------------------------------------------------------------------ under locks

  function AllAsEpic(txns: seq<Gacco.Txn>): (ts: seq<Epic.Params>)
    ensures |ts| == |txns| && forall u: nat | u < |ts| :: ts[u] == AsEpic(txns[u])
  {
    seq(|txns|, u requires 0 <= u < |txns| => AsEpic(txns[u]))
  }

  /** What one work of transaction u on row k does to a counter in it: a Payment makes its change, a
      NewOrder only reads. */
  ghost predicate WorkPays(p: Program, txns: seq<Gacco.Txn>, values: nat -> Values, k: Counter) {
    forall g: nat, local: Local, row: Row | g < |p.acts| && p.acts[g].kind == Work && p.acts[g].key == KeyOf(k) ::
      PaysAt(p, txns, values, k, g, local, row)
  }

  ghost predicate PaysAt(p: Program, txns: seq<Gacco.Txn>, values: nat -> Values, k: Counter, g: nat, local: Local,
                         row: Row)
    requires g < |p.acts|
  {
    |row| > WordNumber(k) ==>
      && |p.work(g, local, row).0| == |row|
      && WordIn(p.work(g, local, row).0, WordNumber(k)) % WORD ==
         (WordIn(row, WordNumber(k)) + Pays(txns, values, p.acts[g].unit, k)) % WORD
  }

  /** The row of key after a Payment has worked on it. */
  function PaidRow(txn: Gacco.Txn, amount: nat, key: Key, row: Row): (paid: Row)
    ensures |paid| == |row|
  {
    seq(|row|, i requires 0 <= i < |row| => PaidWord(txn, amount, key, row[i], i))
  }

  function PaidWord(txn: Gacco.Txn, amount: nat, key: Key, w: nat, i: nat): nat {
    if !txn.Payment? then w
    else if key == Key(WAREHOUSE, txn.warehouse) && i == W_YTD then AddWord(w, amount)
    else if key == Key(DISTRICT, txn.district) && i == D_YTD then AddWord(w, amount)
    else if key == Key(CUSTOMER, txn.customer) && i == C_BALANCE then SubWord(w, amount)
    else if key == Key(CUSTOMER, txn.customer) && i == C_YTD_PAYMENT then AddWord(w, amount)
    else if key == Key(CUSTOMER, txn.customer) && i == C_PAYMENT_CNT then AddWord(w, 1)
    else w
  }

  /** What the executor does at each act, of Payments; the rows that NewOrders write have no counters. */
  function ExecutorWork(mode: Gacco.Mode, txns: seq<Gacco.Txn>, values: nat -> Values):
      (nat, Local, Row) -> (Row, Local)
  {
    var acts := Flatten(Gacco.Units(mode, txns), |txns|);
    (g: nat, local: Local, row: Row) =>
      if g < |acts| && acts[g].unit < |txns| then
        (PaidRow(txns[acts[g].unit], values(acts[g].unit).paymentAmount, acts[g].key, row), local)
      else (row, local)
  }

  lemma Plus(w: nat, amount: nat)
    ensures AddWord(w, amount) % WORD == (w + amount) % WORD
  {}

  lemma Minus(w: nat, amount: nat)
    ensures SubWord(w, amount) % WORD == (w + (0 - (amount as int))) % WORD
  {}

  lemma PaidWordPays(txn: Gacco.Txn, v: Values, k: Counter, w: nat)
    ensures PaidWord(txn, v.paymentAmount, KeyOf(k), w, WordNumber(k)) % WORD ==
            (w + TxnChange(AsEpic(txn), v, KeyOf(k), WordNumber(k))) % WORD
  {
    hide EntriesOf, AddWord, SubWord;
    if txn.Payment? && k.Balance? {
      Minus(w, v.paymentAmount);
    } else {
      Plus(w, v.paymentAmount);
      Plus(w, 1);
    }
  }

  lemma PaidRowPays(txn: Gacco.Txn, v: Values, k: Counter, row: Row)
    requires |row| > WordNumber(k)
    ensures WordIn(PaidRow(txn, v.paymentAmount, KeyOf(k), row), WordNumber(k)) % WORD ==
            (WordIn(row, WordNumber(k)) + TxnChange(AsEpic(txn), v, KeyOf(k), WordNumber(k))) % WORD
  {
    hide TxnChange, PaidWord;
    PaidWordPays(txn, v, k, row[WordNumber(k)]);
  }

  /** So its work makes the changes. */
  lemma {:induction false} ExecutorPays(mode: Gacco.Mode, txns: seq<Gacco.Txn>, values: nat -> Values, k: Counter)
    ensures WorkPays(Gacco.TpccProgram(mode, txns, ExecutorWork(mode, txns, values)), txns, values, k)
  {
    hide PaysAt, Gacco.TpccProgram, ExecutorWork;
    var p := Gacco.TpccProgram(mode, txns, ExecutorWork(mode, txns, values));
    forall g: nat, local: Local, row: Row | g < |p.acts| && p.acts[g].kind == Work && p.acts[g].key == KeyOf(k)
      ensures PaysAt(p, txns, values, k, g, local, row)
    {
      ExecutorPaysAt(mode, txns, values, k, p, g, local, row);
    }
  }

  lemma ExecutorPaysAt(mode: Gacco.Mode, txns: seq<Gacco.Txn>, values: nat -> Values, k: Counter, p: Program, g: nat,
                       local: Local, row: Row)
    requires p == Gacco.TpccProgram(mode, txns, ExecutorWork(mode, txns, values))
    requires g < |p.acts| && p.acts[g].kind == Work && p.acts[g].key == KeyOf(k)
    ensures PaysAt(p, txns, values, k, g, local, row)
  {
    hide Gacco.Units, PaidRow, TxnChange, Flatten, WordIn, WordNumber;
    var u := p.acts[g].unit;
    if |row| > WordNumber(k) && u < |txns| { PaidRowPays(txns[u], values(u), k, row); }
  }

  function Pays(txns: seq<Gacco.Txn>, values: nat -> Values, u: nat, k: Counter): int {
    if u < |txns| then TxnChange(AsEpic(txns[u]), values(u), KeyOf(k), WordNumber(k)) else 0
  }

  /** What the first g acts have changed a counter by. */
  function PaidUpto(p: Program, txns: seq<Gacco.Txn>, values: nat -> Values, k: Counter, g: nat): int
    requires g <= |p.acts|
  {
    if g == 0 then 0
    else
      PaidUpto(p, txns, values, k, g - 1)
      + if p.acts[g - 1].kind == Work && p.acts[g - 1].key == KeyOf(k)
        then Pays(txns, values, p.acts[g - 1].unit, k) else 0
  }

  lemma {:induction false} LockedWord(p: Program, rows: map<Key, Row>, txns: seq<Gacco.Txn>, values: nat -> Values,
                                      k: Counter, g: nat)
    requires WorkPays(p, txns, values, k) && g <= |p.acts|
    requires |SerialData(p, rows, 0).RowOf(KeyOf(k))| > WordNumber(k)
    ensures |SerialData(p, rows, g).RowOf(KeyOf(k))| == |SerialData(p, rows, 0).RowOf(KeyOf(k))|
    ensures WordIn(SerialData(p, rows, g).RowOf(KeyOf(k)), WordNumber(k)) % WORD ==
            (WordIn(SerialData(p, rows, 0).RowOf(KeyOf(k)), WordNumber(k)) + PaidUpto(p, txns, values, k, g)) % WORD
    decreases g
  {
    hide WorkPays, SerialData, WordIn, Pays;
    if g > 0 {
      LockedWord(p, rows, txns, values, k, g - 1);
      OneMoreWord(p, rows, txns, values, k, g - 1);
      var word0 := WordIn(SerialData(p, rows, 0).RowOf(KeyOf(k)), WordNumber(k));
      AddedModulo(WordIn(SerialData(p, rows, g - 1).RowOf(KeyOf(k)), WordNumber(k)),
        word0 + PaidUpto(p, txns, values, k, g - 1),
        PaidUpto(p, txns, values, k, g) - PaidUpto(p, txns, values, k, g - 1));
    }
  }

  lemma {:induction false} OneMoreWord(p: Program, rows: map<Key, Row>, txns: seq<Gacco.Txn>, values: nat -> Values,
                                       k: Counter, g: nat)
    requires WorkPays(p, txns, values, k) && g < |p.acts|
    requires |SerialData(p, rows, g).RowOf(KeyOf(k))| > WordNumber(k)
    ensures |SerialData(p, rows, g + 1).RowOf(KeyOf(k))| == |SerialData(p, rows, g).RowOf(KeyOf(k))|
    ensures WordIn(SerialData(p, rows, g + 1).RowOf(KeyOf(k)), WordNumber(k)) % WORD ==
            (WordIn(SerialData(p, rows, g).RowOf(KeyOf(k)), WordNumber(k))
             + (PaidUpto(p, txns, values, k, g + 1) - PaidUpto(p, txns, values, k, g))) % WORD
  {
    hide WorkPays, WordIn, Pays, SerialData;
    RowAfterAct(p, rows, KeyOf(k), g);
    if p.acts[g].kind == Work && p.acts[g].key == KeyOf(k) {
      WorkPaysAt(p, txns, values, k, g, SerialData(p, rows, g).LocalOf(p.acts[g].unit),
        SerialData(p, rows, g).RowOf(KeyOf(k)));
    }
  }

  lemma RowAfterAct(p: Program, rows: map<Key, Row>, k: Key, g: nat)
    requires g < |p.acts|
    ensures var a, d := p.acts[g], SerialData(p, rows, g);
            SerialData(p, rows, g + 1).RowOf(k) ==
            if a.kind == Work && a.key == k then p.work(g, d.LocalOf(a.unit), d.RowOf(k)).0 else d.RowOf(k)
  {}

  lemma WorkPaysAt(p: Program, txns: seq<Gacco.Txn>, values: nat -> Values, k: Counter, g: nat, local: Local, row: Row)
    requires WorkPays(p, txns, values, k)
    requires g < |p.acts| && p.acts[g].kind == Work && p.acts[g].key == KeyOf(k)
    ensures PaysAt(p, txns, values, k, g, local, row)
  {
    hide PaysAt;
  }

  /** How many of the acts on a row are work. */
  function Works(kinds: seq<Kind>): nat {
    if kinds == [] then 0 else Works(kinds[..|kinds| - 1]) + if kinds[|kinds| - 1] == Work then 1 else 0
  }

  lemma {:induction false} WorksOfSections(n: nat)
    ensures Works(Sections(n)) == n
  {
    if n > 0 {
      WorksOfSections(n - 1);
      var s := Sections(n - 1);
      WorksAppend(s, Acquire);
      WorksAppend(s + [Acquire], Work);
      WorksAppend(s + [Acquire] + [Work], Release);
      assert Sections(n) == s + [Acquire] + [Work] + [Release];
    }
  }

  lemma WorksAppend(s: seq<Kind>, x: Kind)
    ensures Works(s + [x]) == Works(s) + if x == Work then 1 else 0
  {
    assert (s + [x])[..|s|] == s;
  }

  lemma {:induction false} SegmentPays(p: Program, txns: seq<Gacco.Txn>, values: nat -> Values, k: Counter, u: nat,
                                       at: nat, acts: seq<Act>, n: nat)
    requires at + |acts| <= |p.acts| && p.acts[at..at + |acts|] == acts && OwnActs(acts, u) && n <= |acts|
    ensures PaidUpto(p, txns, values, k, at + n) ==
            PaidUpto(p, txns, values, k, at) + Pays(txns, values, u, k) * Works(ActsOn(acts[..n], KeyOf(k)))
    decreases n
  {
    hide Pays, ActsOn, Works, OwnActs;
    if n > 0 {
      SegmentPays(p, txns, values, k, u, at, acts, n - 1);
      OneMoreKind(acts, KeyOf(k), n - 1);
      ActOfSegment(p, at, acts, u, n - 1);
      Distributes(Pays(txns, values, u, k), Works(ActsOn(acts[..n - 1], KeyOf(k))));
    } else {
      NoWork(acts, KeyOf(k));
    }
  }

  lemma NoWork(acts: seq<Act>, k: Key)
    ensures Works(ActsOn(acts[..0], k)) == 0
  {
    assert acts[..0] == [];
  }

  lemma ActOfSegment(p: Program, at: nat, acts: seq<Act>, u: nat, n: nat)
    requires at + |acts| <= |p.acts| && p.acts[at..at + |acts|] == acts && OwnActs(acts, u) && n < |acts|
    ensures p.acts[at + n] == acts[n] && acts[n].unit == u
  {
    assert acts[n] in acts;
  }

  lemma Distributes(c: int, n: int)
    ensures c * (n + 1) == c * n + c
  {}

  lemma OneMoreKind(acts: seq<Act>, k: Key, n: nat)
    requires n < |acts|
    ensures Works(ActsOn(acts[..n + 1], k)) ==
            Works(ActsOn(acts[..n], k)) + if acts[n].key == k && acts[n].kind == Work then 1 else 0
  {
    hide Works;
    assert acts[..n + 1][..n] == acts[..n];
    WorksAppend(ActsOn(acts[..n], k), acts[n].kind);
    assert ActsOn(acts[..n], k) + [] == ActsOn(acts[..n], k);
  }

  /** A transaction works on a counter's row once if it changes the counter. */
  lemma {:induction false} TxnPays(mode: Gacco.Mode, txns: seq<Gacco.Txn>, values: nat -> Values, u: nat, k: Counter)
    requires !mode.useAtomic && u < |txns|
    ensures Pays(txns, values, u, k) * Works(ActsOn(Gacco.TxnActs(mode, txns[u], u), KeyOf(k))) ==
            Pays(txns, values, u, k)
  {
    hide Gacco.TxnActs, ActsOn, Works, Sections;
    var txn, key := txns[u], KeyOf(k);
    if txn.Payment? {
      TxnWorksOnWhatIsListed(mode, txn, u, key.table);
      WorksOfSections(Times(Gacco.Listed(mode, txn, key.table), key.row));
      OneTime(if key.table == WAREHOUSE then txn.warehouse else if key.table == DISTRICT then txn.district
              else txn.customer, key.row);
    }
  }

  lemma {:induction false} SegmentOf(mode: Gacco.Mode, txns: seq<Gacco.Txn>, work: (nat, Local, Row) -> (Row, Local),
                                     u: nat)
    requires u < |txns|
    ensures var p, at, acts := Gacco.TpccProgram(mode, txns, work), |Flatten(Gacco.Units(mode, txns), u)|,
                               Gacco.TxnActs(mode, txns[u], u);
            && at + |acts| == |Flatten(Gacco.Units(mode, txns), u + 1)| <= |p.acts|
            && p.acts[at..at + |acts|] == acts && OwnActs(acts, u)
  {
    hide Gacco.TxnActs, OwnActs, Disciplined;
    var units := Gacco.Units(mode, txns);
    Gacco.TpccUnitsOk(mode, txns);
    assert OwnActs(units[u], u);
    assert Flatten(units, u + 1) == Flatten(units, u) + Gacco.TxnActs(mode, txns[u], u);
    FlattenPrefix(units, u + 1, |units|);
  }

  lemma {:induction false} BatchPays(mode: Gacco.Mode, txns: seq<Gacco.Txn>, work: (nat, Local, Row) -> (Row, Local),
                                     r: WordRun, k: Counter, u: nat)
    requires !mode.useAtomic && r.txns == AllAsEpic(txns) && u <= |txns|
    ensures |Flatten(Gacco.Units(mode, txns), u)| <= |Gacco.TpccProgram(mode, txns, work).acts|
    ensures PaidUpto(Gacco.TpccProgram(mode, txns, work), txns, r.values, k, |Flatten(Gacco.Units(mode, txns), u)|) ==
            Change(r, KeyOf(k), WordNumber(k), u)
    decreases u
  {
    hide Gacco.TpccProgram, Gacco.TxnActs, Change, ActsOn, Works, IsTotal, Flatten, OwnActs, Gacco.Units;
    hide Pays, PaidUpto, AllAsEpic, TxnChange;
    NoChange(r, KeyOf(k), WordNumber(k));
    if u > 0 {
      var p, at, acts := Gacco.TpccProgram(mode, txns, work), |Flatten(Gacco.Units(mode, txns), u - 1)|,
                         Gacco.TxnActs(mode, txns[u - 1], u - 1);
      BatchPays(mode, txns, work, r, k, u - 1);
      SegmentOf(mode, txns, work, u - 1);
      SegmentPays(p, txns, r.values, k, u - 1, at, acts, |acts|);
      assert acts[..|acts|] == acts;
      TxnPays(mode, txns, r.values, u - 1, k);
      PaysItsChange(r, txns, u - 1, k);
      CounterIsTotal(k);
      ChangeStep(r, KeyOf(k), WordNumber(k), u - 1);
    } else {
      NoActs(mode, txns);
      NothingPaid(Gacco.TpccProgram(mode, txns, work), txns, r.values, k);
    }
  }

  lemma PaysItsChange(r: WordRun, txns: seq<Gacco.Txn>, u: nat, k: Counter)
    requires r.txns == AllAsEpic(txns) && u < |txns|
    ensures Pays(txns, r.values, u, k) == TxnChange(r.txns[u], r.values(u), KeyOf(k), WordNumber(k))
  {
    hide TxnChange;
  }

  lemma NothingPaid(p: Program, txns: seq<Gacco.Txn>, values: nat -> Values, k: Counter)
    ensures PaidUpto(p, txns, values, k, 0) == 0
  {}

  lemma NoActs(mode: Gacco.Mode, txns: seq<Gacco.Txn>)
    ensures Flatten(Gacco.Units(mode, txns), 0) == []
  {}

  lemma AllActs(mode: Gacco.Mode, txns: seq<Gacco.Txn>, work: (nat, Local, Row) -> (Row, Local))
    ensures |Flatten(Gacco.Units(mode, txns), |txns|)| == |Gacco.TpccProgram(mode, txns, work).acts|
    ensures |Gacco.TpccProgram(mode, txns, work).token| == |txns|
    ensures |Gacco.TpccProgram(mode, txns, work).start| == |txns| + 1
  {
    hide Gacco.TxnActs, Flatten;
  }

  /** A finished run under full locking leaves in every counter what it was, changed by all Payments. */
  lemma {:induction false} LockedTotalIs(mode: Gacco.Mode, txns: seq<Gacco.Txn>,
                                         work: (nat, Local, Row) -> (Row, Local), r: WordRun, l: Lists,
                                         rows: map<Key, Row>, schedule: seq<nat>, k: Counter)
    requires !mode.useAtomic && r.txns == AllAsEpic(txns)
    requires forall t: nat :: ListsOf(l, t, Gacco.Submitted(mode, txns, t, |txns|))
    requires WorkPays(Gacco.TpccProgram(mode, txns, work), txns, r.values, k)
    requires forall i: nat | i < |schedule| :: schedule[i] < |txns|
    requires LockFinished(Gacco.TpccProgram(mode, txns, work),
                          LockRun(Gacco.TpccProgram(mode, txns, work), l, rows, schedule))
    requires KeyOf(k) in rows && |rows[KeyOf(k)]| > WordNumber(k)
    ensures var left := LockRun(Gacco.TpccProgram(mode, txns, work), l, rows, schedule).data.RowOf(KeyOf(k));
            WordIn(left, WordNumber(k)) % WORD ==
            (WordIn(rows[KeyOf(k)], WordNumber(k)) + Change(r, KeyOf(k), WordNumber(k), |txns|)) % WORD
  {
    hide ListsOf, WorkPays, LockRun, LockFinished, Gacco.TpccProgram, Change, WordIn, LocksReady, Flatten, Gacco.Units;
    hide SerialData, WordNumber;
    AllActs(mode, txns, work);
    Gacco.TpccLocksReady(mode, txns, work, l);
    StockPaths.FinishedRow(Gacco.TpccProgram(mode, txns, work), l, rows, schedule, KeyOf(k));
    SerialTotalIs(mode, txns, work, r, rows, k);
  }

  /** So does the serial run. */
  lemma {:induction false} SerialTotalIs(mode: Gacco.Mode, txns: seq<Gacco.Txn>,
                                         work: (nat, Local, Row) -> (Row, Local), r: WordRun, rows: map<Key, Row>,
                                         k: Counter)
    requires !mode.useAtomic && r.txns == AllAsEpic(txns)
    requires WorkPays(Gacco.TpccProgram(mode, txns, work), txns, r.values, k)
    requires KeyOf(k) in rows && |rows[KeyOf(k)]| > WordNumber(k)
    ensures var p := Gacco.TpccProgram(mode, txns, work);
            WordIn(SerialData(p, rows, |p.acts|).RowOf(KeyOf(k)), WordNumber(k)) % WORD ==
            (WordIn(rows[KeyOf(k)], WordNumber(k)) + Change(r, KeyOf(k), WordNumber(k), |txns|)) % WORD
  {
    hide WorkPays, Gacco.TpccProgram, Change, WordIn, Flatten, Gacco.Units, SerialData, WordNumber, PaidUpto;
    var p := Gacco.TpccProgram(mode, txns, work);
    AllActs(mode, txns, work);
    NothingDone(p, rows, KeyOf(k));
    LockedWord(p, rows, txns, r.values, k, |p.acts|);
    BatchPays(mode, txns, work, r, k, |txns|);
  }

  lemma NothingDone(p: Program, rows: map<Key, Row>, k: Key)
    ensures SerialData(p, rows, 0).RowOf(k) == if k in rows then rows[k] else []
  {}

  // ------------------------------------------------------------------ the three agree

  /** Epic's epoch, GAccO's locks and GAccO's atomic additions, each in an interleaving of its own,
      leave the same word in every total and counter. */
  lemma {:induction false} EnginesAgree(c: Config, steps: seq<nat>, mode: Gacco.Mode, txns: seq<Gacco.Txn>,
                                        values: nat -> Values, work: (nat, Local, Row) -> (Row, Local), l: Lists,
                                        rows: map<Key, Row>, acts: seq<nat>, begin: Counter -> nat,
                                        updates: seq<nat>, k: Counter)
    requires RunsBatch(c, AllAsEpic(txns), values) && WordNumber(k) < c.job.width(KeyOf(k).table)
    requires forall j | 0 <= j < |steps| :: steps[j] < NumUnits(c.job)
    requires SerialEquivalence.Finished(c, Run(c, steps))
    requires !mode.useAtomic && forall t: nat :: ListsOf(l, t, Gacco.Submitted(mode, txns, t, |txns|))
    requires WorkPays(Gacco.TpccProgram(mode, txns, work), txns, values, k)
    requires forall i: nat | i < |acts| :: acts[i] < |txns|
    requires LockFinished(Gacco.TpccProgram(mode, txns, work),
                          LockRun(Gacco.TpccProgram(mode, txns, work), l, rows, acts))
    requires (forall i | 0 <= i < |updates| :: updates[i] < |txns|) && Words32(begin)
    requires AllUpdated(AllAsEpic(txns), AmountsOf(values),
                        TotalsRun(AllAsEpic(txns), AmountsOf(values), begin, updates))
    requires KeyOf(k) in rows && |rows[KeyOf(k)]| > WordNumber(k)
    requires begin(k) == WordIn(rows[KeyOf(k)], WordNumber(k)) == WordIn(Db(c)(KeyOf(k)), WordNumber(k))
    ensures var epic := WordIn(Contents(Run(c, steps).mem, c.job.width)(KeyOf(k)), WordNumber(k));
            var locked := WordIn(LockRun(Gacco.TpccProgram(mode, txns, work), l, rows, acts).data.RowOf(KeyOf(k)),
                                 WordNumber(k));
            var atomic := WordOf(TotalsRun(AllAsEpic(txns), AmountsOf(values), begin, updates).words, begin, k);
            epic % WORD == locked % WORD == atomic
  {
    hide RunsBatch, ListsOf, WorkPays, LockRun, LockFinished, Gacco.TpccProgram, Change, WordIn, TotalsRun, AllUpdated;
    hide Run, Contents, WordOf, Words32, IsTotal, SerialEquivalence.Finished;
    var r := RunIn(c, AllAsEpic(txns), values);
    CounterIsTotal(k);
    EpochTotal(c, steps, AllAsEpic(txns), values, KeyOf(k), WordNumber(k));
    LockedTotalIs(mode, txns, work, r, l, rows, acts, k);
    AtomicTotalIs(r, begin, updates, k);
  }
}
