/** GAccO's Payments in the atomic mode: the totals are updated by atomic additions and subtractions
    without locks, in any interleaving. */
module AtomicMoney {
  import opened Machine
  import opened TpccLanes
  import opened TpccSubmitter

  /** The words that Payments update. */
  datatype Counter =
    | WarehouseYtd(row: nat) | DistrictYtd(row: nat)
    | Balance(row: nat) | YtdPayment(row: nat) | PaymentCount(row: nat)

  datatype Update = Add(counter: Counter, value: nat) | Sub(counter: Counter, value: nat)

  /** The atomic updates of a transaction, in order. */
  function Updates(t: Params, amount: nat): seq<Update> {
    match t
    case Payment(warehouse, district, customer) =>
      [Add(WarehouseYtd(warehouse), amount), Add(DistrictYtd(district), amount), Sub(Balance(customer), amount),
       Add(YtdPayment(customer), amount), Add(PaymentCount(customer), 1)]
    case _ => []
  }

  function Apply(x: Update, word: nat): nat {
    match x
    case Add(_, value) => AddWord(word, value)
    case Sub(_, value) => SubWord(word, value)
  }

  /** What an update adds to its word, modulo 2^32. */
  function Delta(x: Update, k: Counter): (d: int)
    ensures x.counter != k ==> d == 0
  {
    if x.counter != k then 0 else if x.Add? then x.value else 0 - (x.value as int)
  }

  datatype Totals = Totals(pc: seq<nat>, words: map<Counter, nat>)

  function WordOf(words: map<Counter, nat>, begin: Counter -> nat, k: Counter): nat {
    if k in words then words[k] else begin(k)
  }

  /** The next atomic update of transaction u, if it has one left. */
  function TotalsStep(txns: seq<Params>, amount: nat -> nat, begin: Counter -> nat, s: Totals, u: nat): (s': Totals)
    requires |s.pc| == |txns| && u < |txns|
    ensures |s'.pc| == |txns|
  {
    var xs := Updates(txns[u], amount(u));
    if s.pc[u] < |xs| then
      var x := xs[s.pc[u]];
      Totals(s.pc[u := s.pc[u] + 1], s.words[x.counter := Apply(x, WordOf(s.words, begin, x.counter))])
    else s
  }

  // ------------------------------------------------------------------ what has been added

  /** What the first n updates of a transaction add to a word. */
  function Added(xs: seq<Update>, n: nat, k: Counter): int
    requires n <= |xs|
  {
    if n == 0 then 0 else Added(xs, n - 1, k) + Delta(xs[n - 1], k)
  }

  ghost predicate PcsOk(txns: seq<Params>, amount: nat -> nat, pc: seq<nat>) {
    |pc| == |txns| && forall u: nat | u < |txns| :: pc[u] <= |Updates(txns[u], amount(u))|
  }

  /** What the first m transactions have added so far. */
  function AddedBy(txns: seq<Params>, amount: nat -> nat, pc: seq<nat>, m: nat, k: Counter): int
    requires PcsOk(txns, amount, pc) && m <= |txns|
  {
    if m == 0 then 0 else AddedBy(txns, amount, pc, m - 1, k) + Added(Updates(txns[m - 1], amount(m - 1)), pc[m - 1], k)
  }

  ghost predicate Words32(begin: Counter -> nat) {
    forall k :: begin(k) < WORD
  }

  ghost predicate TotalsInv(txns: seq<Params>, amount: nat -> nat, begin: Counter -> nat, s: Totals) {
    && PcsOk(txns, amount, s.pc)
    && forall k :: WordOf(s.words, begin, k) == (begin(k) + AddedBy(txns, amount, s.pc, |txns|, k)) % WORD
  }

  lemma {:induction false} ApplyIsModular(x: Update, sum: int)
    ensures Apply(x, sum % WORD) == (sum + Delta(x, x.counter)) % WORD
  {
    if x.Add? { AddIsModular(sum, x.value); } else { SubIsModular(sum, x.value); }
    hide AddWord, SubWord;
  }

  lemma {:induction false} AddIsModular(sum: int, value: nat)
    ensures AddWord(sum % WORD, value) == (sum + value) % WORD
  {}

  lemma {:induction false} SubIsModular(sum: int, value: nat)
    ensures SubWord(sum % WORD, value) == (sum - value) % WORD
  {}

  lemma {:induction false} OneMoreAdded(txns: seq<Params>, amount: nat -> nat, pc: seq<nat>, u: nat, m: nat, k: Counter)
    requires PcsOk(txns, amount, pc) && u < |txns| && m <= |txns| && pc[u] < |Updates(txns[u], amount(u))|
    ensures PcsOk(txns, amount, pc[u := pc[u] + 1])
    ensures AddedBy(txns, amount, pc[u := pc[u] + 1], m, k) ==
            AddedBy(txns, amount, pc, m, k) + if u < m then Delta(Updates(txns[u], amount(u))[pc[u]], k) else 0
    decreases m
  {
    hide Updates, Delta;
    if m > 0 { OneMoreAdded(txns, amount, pc, u, m - 1, k); }
  }

  lemma {:induction false} WordAfterStep(txns: seq<Params>, amount: nat -> nat, begin: Counter -> nat, s: Totals,
                                         u: nat, k: Counter)
    requires TotalsInv(txns, amount, begin, s) && u < |txns| && s.pc[u] < |Updates(txns[u], amount(u))|
    requires PcsOk(txns, amount, s.pc[u := s.pc[u] + 1])
    ensures WordOf(TotalsStep(txns, amount, begin, s, u).words, begin, k) ==
            (begin(k) + AddedBy(txns, amount, s.pc[u := s.pc[u] + 1], |txns|, k)) % WORD
  {
    hide PcsOk, AddedBy, TotalsInv, Updates, Apply, Delta;
    InvWord(txns, amount, begin, s, k);
    OneMoreAdded(txns, amount, s.pc, u, |txns|, k);
    var x, sum := Updates(txns[u], amount(u))[s.pc[u]], begin(k) + AddedBy(txns, amount, s.pc, |txns|, k);
    ApplyIsModular(x, sum);
  }

  lemma InvWord(txns: seq<Params>, amount: nat -> nat, begin: Counter -> nat, s: Totals, k: Counter)
    requires TotalsInv(txns, amount, begin, s)
    ensures |s.pc| == |txns| && PcsOk(txns, amount, s.pc)
    ensures WordOf(s.words, begin, k) == (begin(k) + AddedBy(txns, amount, s.pc, |txns|, k)) % WORD
  {
    hide AddedBy;
  }

  lemma {:induction false} TotalsStepKeepsInv(txns: seq<Params>, amount: nat -> nat, begin: Counter -> nat, s: Totals,
                                              u: nat)
    requires TotalsInv(txns, amount, begin, s) && u < |txns|
    ensures TotalsInv(txns, amount, begin, TotalsStep(txns, amount, begin, s, u))
  {
    hide Updates, AddedBy;
    if s.pc[u] < |Updates(txns[u], amount(u))| {
      var s' := TotalsStep(txns, amount, begin, s, u);
      assert s'.pc == s.pc[u := s.pc[u] + 1];
      assert PcsOk(txns, amount, s'.pc);
      hide PcsOk;
      forall k ensures WordOf(s'.words, begin, k) == (begin(k) + AddedBy(txns, amount, s'.pc, |txns|, k)) % WORD {
        WordAfterStep(txns, amount, begin, s, u, k);
      }
    }
  }

  function TotalsRun(txns: seq<Params>, amount: nat -> nat, begin: Counter -> nat, schedule: seq<nat>): (s: Totals)
    requires forall i | 0 <= i < |schedule| :: schedule[i] < |txns|
    ensures |s.pc| == |txns|
  {
    if schedule == [] then Totals(seq(|txns|, _ => 0), map[])
    else TotalsStep(txns, amount, begin, TotalsRun(txns, amount, begin, schedule[..|schedule| - 1]),
                    schedule[|schedule| - 1])
  }

  lemma {:induction false} NothingAdded(txns: seq<Params>, amount: nat -> nat, pc: seq<nat>, m: nat, k: Counter)
    requires PcsOk(txns, amount, pc) && m <= |txns| && forall u: nat | u < |txns| :: pc[u] == 0
    ensures AddedBy(txns, amount, pc, m, k) == 0
    decreases m
  {
    hide Updates;
    if m > 0 { NothingAdded(txns, amount, pc, m - 1, k); }
  }

  /** No update is lost: in every interleaving every word is what it was at the start plus all that
      has been added to it, modulo 2^32. */
  lemma {:induction false} TotalsRunKeepsInv(txns: seq<Params>, amount: nat -> nat, begin: Counter -> nat,
                                             schedule: seq<nat>)
    requires forall i | 0 <= i < |schedule| :: schedule[i] < |txns|
    requires Words32(begin)
    ensures TotalsInv(txns, amount, begin, TotalsRun(txns, amount, begin, schedule))
    decreases |schedule|
  {
    if schedule == [] {
      var s := TotalsRun(txns, amount, begin, []);
      assert PcsOk(txns, amount, s.pc);
      forall k ensures AddedBy(txns, amount, s.pc, |txns|, k) == 0 { NothingAdded(txns, amount, s.pc, |txns|, k); }
    } else {
      hide TotalsInv, TotalsStep;
      TotalsRunKeepsInv(txns, amount, begin, schedule[..|schedule| - 1]);
      TotalsStepKeepsInv(txns, amount, begin, TotalsRun(txns, amount, begin, schedule[..|schedule| - 1]),
        schedule[|schedule| - 1]);
    }
  }

  // ------------------------------------------------------------------ the serial result

  /** A word after the first n updates of a transaction, one after the other. */
  function AppliedInOrder(xs: seq<Update>, n: nat, k: Counter, word: nat): nat
    requires n <= |xs|
  {
    if n == 0 then word
    else
      var w := AppliedInOrder(xs, n - 1, k, word);
      if xs[n - 1].counter == k then Apply(xs[n - 1], w) else w
  }

  /** A word after the first m transactions, one after the other. */
  function SerialWord(txns: seq<Params>, amount: nat -> nat, begin: Counter -> nat, m: nat, k: Counter): nat
    requires m <= |txns|
  {
    if m == 0 then begin(k)
    else
      var xs := Updates(txns[m - 1], amount(m - 1));
      AppliedInOrder(xs, |xs|, k, SerialWord(txns, amount, begin, m - 1, k))
  }

  ghost predicate AllUpdated(txns: seq<Params>, amount: nat -> nat, s: Totals) {
    |s.pc| == |txns| && forall u: nat | u < |txns| :: s.pc[u] == |Updates(txns[u], amount(u))|
  }

  lemma {:induction false} OrderedSum(xs: seq<Update>, n: nat, k: Counter, sum: int)
    requires n <= |xs|
    ensures AppliedInOrder(xs, n, k, sum % WORD) == (sum + Added(xs, n, k)) % WORD
    decreases n
  {
    if n > 0 {
      OrderedSum(xs, n - 1, k, sum);
      ApplyIsModular(xs[n - 1], sum + Added(xs, n - 1, k));
      hide Apply;
    }
  }

  lemma {:induction false} SerialSum(txns: seq<Params>, amount: nat -> nat, begin: Counter -> nat, s: Totals, m: nat,
                                     k: Counter)
    requires AllUpdated(txns, amount, s) && PcsOk(txns, amount, s.pc) && m <= |txns| && begin(k) < WORD
    ensures SerialWord(txns, amount, begin, m, k) == (begin(k) + AddedBy(txns, amount, s.pc, m, k)) % WORD
    decreases m
  {
    hide Updates, AppliedInOrder, Added, PcsOk;
    if m > 0 {
      SerialSum(txns, amount, begin, s, m - 1, k);
      var xs := Updates(txns[m - 1], amount(m - 1));
      OrderedSum(xs, |xs|, k, begin(k) + AddedBy(txns, amount, s.pc, m - 1, k));
    }
  }

  lemma {:induction false} FinishedIsSerial(txns: seq<Params>, amount: nat -> nat, begin: Counter -> nat, s: Totals)
    requires TotalsInv(txns, amount, begin, s) && AllUpdated(txns, amount, s) && Words32(begin)
    ensures forall k :: WordOf(s.words, begin, k) == SerialWord(txns, amount, begin, |txns|, k)
  {
    forall k ensures WordOf(s.words, begin, k) == SerialWord(txns, amount, begin, |txns|, k) {
      SerialSum(txns, amount, begin, s, |txns|, k);
    }
  }

  /** A finished run has the totals of running the transactions one after the other. */
  lemma {:induction false} AtomicTotalsAreSerial(txns: seq<Params>, amount: nat -> nat, begin: Counter -> nat,
                                                 schedule: seq<nat>, k: Counter)
    requires forall i | 0 <= i < |schedule| :: schedule[i] < |txns|
    requires Words32(begin)
    requires AllUpdated(txns, amount, TotalsRun(txns, amount, begin, schedule))
    ensures WordOf(TotalsRun(txns, amount, begin, schedule).words, begin, k) ==
            SerialWord(txns, amount, begin, |txns|, k)
  {
    TotalsRunKeepsInv(txns, amount, begin, schedule);
    hide TotalsRun, TotalsInv, AllUpdated, SerialWord, WordOf, Words32;
    FinishedIsSerial(txns, amount, begin, TotalsRun(txns, amount, begin, schedule));
  }

  // ------------------------------------------------------------------ what balances

  /** What has been added to the districts' totals. */
  function AddedToDistricts(txns: seq<Params>, amount: nat -> nat, pc: seq<nat>, m: nat, districts: seq<nat>): int
    requires PcsOk(txns, amount, pc) && m <= |txns|
  {
    if districts == [] then 0
    else AddedToDistricts(txns, amount, pc, m, districts[..|districts| - 1])
         + AddedBy(txns, amount, pc, m, DistrictYtd(districts[|districts| - 1]))
  }

  /** One finished transaction adds to the totals of a warehouse what it adds to those of its
      districts. */
  lemma {:induction false} AddedToOneDistrict(txns: seq<Params>, amount: nat -> nat, s: Totals, m: nat, ds: seq<nat>)
    requires AllUpdated(txns, amount, s) && PcsOk(txns, amount, s.pc) && m < |txns|
    requires forall i: nat, j: nat | i < j < |ds| :: ds[i] != ds[j]
    ensures AddedToDistricts(txns, amount, s.pc, m + 1, ds) ==
            AddedToDistricts(txns, amount, s.pc, m, ds)
            + if txns[m].Payment? && txns[m].district in ds then amount(m) else 0
    decreases |ds|
  {
    hide Updates, Added, PcsOk;
    if ds != [] {
      var n := |ds| - 1;
      AddedToOneDistrict(txns, amount, s, m, ds[..n]);
      AddedByPayment(txns[m], amount(m), DistrictYtd(ds[n]));
      assert ds == ds[..n] + [ds[n]];
    }
  }

  lemma {:induction false} AddedByPayment(t: Params, amount: nat, k: Counter)
    ensures var xs := Updates(t, amount);
            Added(xs, |xs|, k) == if !t.Payment? then 0
                                  else if k == WarehouseYtd(t.warehouse) || k == DistrictYtd(t.district)
                                          || k == YtdPayment(t.customer) then amount
                                  else if k == Balance(t.customer) then 0 - amount
                                  else if k == PaymentCount(t.customer) then 1
                                  else 0
  {
    var xs := Updates(t, amount);
    if t.Payment? {
      assert Added(xs, 1, k) == Delta(xs[0], k);
      assert Added(xs, 2, k) == Added(xs, 1, k) + Delta(xs[1], k);
      assert Added(xs, 3, k) == Added(xs, 2, k) + Delta(xs[2], k);
      assert Added(xs, 4, k) == Added(xs, 3, k) + Delta(xs[3], k);
    }
  }

  /** Every Payment is made in a district of its warehouse. */
  ghost predicate InOwnDistricts(txns: seq<Params>, w: nat, districts: seq<nat>) {
    && (forall i: nat, j: nat | i < j < |districts| :: districts[i] != districts[j])
    && (forall u: nat | u < |txns| && txns[u].Payment? :: txns[u].warehouse == w <==> txns[u].district in districts)
  }

  lemma {:induction false} SameIsAdded(txns: seq<Params>, amount: nat -> nat, s: Totals, m: nat, w: nat, ds: seq<nat>)
    requires AllUpdated(txns, amount, s) && PcsOk(txns, amount, s.pc) && m <= |txns| && InOwnDistricts(txns, w, ds)
    ensures AddedBy(txns, amount, s.pc, m, WarehouseYtd(w)) == AddedToDistricts(txns, amount, s.pc, m, ds)
    decreases m
  {
    hide Updates, Added, PcsOk, AddedToDistricts;
    if m == 0 {
      NoneToDistricts(txns, amount, s.pc, ds);
    } else {
      SameIsAdded(txns, amount, s, m - 1, w, ds);
      AddedToOneDistrict(txns, amount, s, m - 1, ds);
      AddedByPayment(txns[m - 1], amount(m - 1), WarehouseYtd(w));
    }
  }

  lemma {:induction false} NoneToDistricts(txns: seq<Params>, amount: nat -> nat, pc: seq<nat>, ds: seq<nat>)
    requires PcsOk(txns, amount, pc)
    ensures AddedToDistricts(txns, amount, pc, 0, ds) == 0
    decreases |ds|
  {
    hide PcsOk;
    if ds != [] { NoneToDistricts(txns, amount, pc, ds[..|ds| - 1]); }
  }

  /** The sum of the districts' totals. */
  function DistrictSum(words: map<Counter, nat>, begin: Counter -> nat, ds: seq<nat>): nat {
    if ds == [] then 0
    else DistrictSum(words, begin, ds[..|ds| - 1]) + WordOf(words, begin, DistrictYtd(ds[|ds| - 1]))
  }

  lemma {:induction false} DistrictSumIs(txns: seq<Params>, amount: nat -> nat, begin: Counter -> nat, s: Totals,
                                         ds: seq<nat>)
    requires TotalsInv(txns, amount, begin, s)
    ensures (DistrictSum(s.words, begin, ds) - DistrictSum(map[], begin, ds)
             - AddedToDistricts(txns, amount, s.pc, |txns|, ds)) % WORD == 0
    decreases |ds|
  {
    hide TotalsInv, AddedBy, PcsOk, WordOf;
    InvWord(txns, amount, begin, s, DistrictYtd(0));
    if ds != [] {
      var k := DistrictYtd(ds[|ds| - 1]);
      InvWord(txns, amount, begin, s, k);
      DistrictSumIs(txns, amount, begin, s, ds[..|ds| - 1]);
      NothingYet(begin, k);
      SumsMod(DistrictSum(s.words, begin, ds[..|ds| - 1]), DistrictSum(map[], begin, ds[..|ds| - 1]),
        AddedToDistricts(txns, amount, s.pc, |txns|, ds[..|ds| - 1]), begin(k),
        AddedBy(txns, amount, s.pc, |txns|, k));
    }
  }

  lemma NothingYet(begin: Counter -> nat, k: Counter)
    ensures WordOf(map[], begin, k) == begin(k)
  {}

  lemma {:induction false} SumsMod(sum: int, sum0: int, added: int, word: int, more: int)
    requires (sum - sum0 - added) % WORD == 0
    ensures (sum + (word + more) % WORD - (sum0 + word) - (added + more)) % WORD == 0
  {}

  ghost predicate TotalsBalanced(words: map<Counter, nat>, begin: Counter -> nat, w: nat, ds: seq<nat>) {
    (WordOf(words, begin, WarehouseYtd(w)) - DistrictSum(words, begin, ds)) % WORD == 0
  }

  lemma {:induction false} FinishedBalances(txns: seq<Params>, amount: nat -> nat, begin: Counter -> nat, s: Totals,
                                            w: nat, ds: seq<nat>)
    requires TotalsInv(txns, amount, begin, s) && AllUpdated(txns, amount, s) && InOwnDistricts(txns, w, ds)
    requires TotalsBalanced(map[], begin, w, ds)
    ensures TotalsBalanced(s.words, begin, w, ds)
  {
    hide TotalsInv, AddedBy, PcsOk, AllUpdated, DistrictSum, InOwnDistricts, AddedToDistricts;
    var k := WarehouseYtd(w);
    InvWord(txns, amount, begin, s, k);
    SameIsAdded(txns, amount, s, |txns|, w, ds);
    DistrictSumIs(txns, amount, begin, s, ds);
    var added := AddedBy(txns, amount, s.pc, |txns|, k);
    BalanceMod(begin(k), added, DistrictSum(s.words, begin, ds), DistrictSum(map[], begin, ds));
  }

  /** In the atomic mode, too, a warehouse's total stays the sum of its districts' totals. */
  lemma {:induction false} AtomicTotalsBalance(txns: seq<Params>, amount: nat -> nat, begin: Counter -> nat,
                                               schedule: seq<nat>, w: nat, ds: seq<nat>)
    requires forall i | 0 <= i < |schedule| :: schedule[i] < |txns|
    requires Words32(begin) && InOwnDistricts(txns, w, ds)
    requires AllUpdated(txns, amount, TotalsRun(txns, amount, begin, schedule))
    requires TotalsBalanced(map[], begin, w, ds)
    ensures TotalsBalanced(TotalsRun(txns, amount, begin, schedule).words, begin, w, ds)
  {
    TotalsRunKeepsInv(txns, amount, begin, schedule);
    hide TotalsRun, TotalsInv, AllUpdated, InOwnDistricts, DistrictSum, Words32, TotalsBalanced;
    FinishedBalances(txns, amount, begin, TotalsRun(txns, amount, begin, schedule), w, ds);
  }

  lemma {:induction false} BalanceMod(total: int, added: int, sum: int, sum0: int)
    requires (total - sum0) % WORD == 0 && (sum - sum0 - added) % WORD == 0
    ensures ((total + added) % WORD - sum) % WORD == 0
  {}

  // ------------------------------------------------------------------ the words in memory

  /** The updates that the first m transactions have left. */
  function UpdatesLeft(txns: seq<Params>, amount: nat -> nat, pc: seq<nat>, m: nat): nat
    requires PcsOk(txns, amount, pc) && m <= |txns|
  {
    if m == 0 then 0 else UpdatesLeft(txns, amount, pc, m - 1) + |Updates(txns[m - 1], amount(m - 1))| - pc[m - 1]
  }

  lemma StepAdvances(txns: seq<Params>, amount: nat -> nat, begin: Counter -> nat, s: Totals, u: nat)
    requires |s.pc| == |txns| && u < |txns| && s.pc[u] < |Updates(txns[u], amount(u))|
    ensures TotalsStep(txns, amount, begin, s, u).pc == s.pc[u := s.pc[u] + 1]
  {}

  lemma {:induction false} UpdatesShrink(txns: seq<Params>, amount: nat -> nat, pc: seq<nat>, u: nat, m: nat)
    requires PcsOk(txns, amount, pc) && u < |txns| && m <= |txns| && pc[u] < |Updates(txns[u], amount(u))|
    ensures PcsOk(txns, amount, pc[u := pc[u] + 1])
    ensures UpdatesLeft(txns, amount, pc[u := pc[u] + 1], m) ==
            UpdatesLeft(txns, amount, pc, m) - if u < m then 1 else 0
    decreases m
  {
    hide Updates;
    if m > 0 { UpdatesShrink(txns, amount, pc, u, m - 1); }
  }

  class PaymentTotals {
    var words: map<Counter, nat>
    var pc: seq<nat>

    function Now(): Totals
      reads this
    {
      Totals(pc, words)
    }

    constructor (n: nat)
      ensures Now() == Totals(seq(n, _ => 0), map[])
    {
      words, pc := map[], seq(n, _ => 0);
    }

    method AtomicAdd(begin: Counter -> nat, k: Counter, value: nat)
      modifies this`words
      ensures words == old(words)[k := AddWord(WordOf(old(words), begin, k), value)]
    {
      var found := if k in words then words[k] else begin(k);
      words := words[k := (found + value) % WORD];
    }

    method AtomicSub(begin: Counter -> nat, k: Counter, value: nat)
      modifies this`words
      ensures words == old(words)[k := SubWord(WordOf(old(words), begin, k), value)]
    {
      var found := if k in words then words[k] else begin(k);
      words := words[k := (found + WORD - value % WORD) % WORD];
    }

    /** One atomic update of transaction u. */
    method Step(txns: seq<Params>, amount: nat -> nat, begin: Counter -> nat, u: nat)
      requires |pc| == |txns| && u < |txns| && pc[u] < |Updates(txns[u], amount(u))|
      modifies this
      ensures Now() == TotalsStep(txns, amount, begin, old(Now()), u)
    {
      var x := Updates(txns[u], amount(u))[pc[u]];
      match x {
        case Add(k, value) => AtomicAdd(begin, k, value);
        case Sub(k, value) => AtomicSub(begin, k, value);
      }
      pc := pc[u := pc[u] + 1];
    }

    /** Runs the transactions to their ends, in any interleaving. */
    method Execute(txns: seq<Params>, amount: nat -> nat, begin: Counter -> nat)
      requires Now() == Totals(seq(|txns|, _ => 0), map[]) && Words32(begin)
      modifies this
      ensures forall k :: WordOf(words, begin, k) == SerialWord(txns, amount, begin, |txns|, k)
    {
      hide Updates, TotalsStep, WordOf, SerialWord, AddedBy, UpdatesLeft, Words32;
      TotalsRunKeepsInv(txns, amount, begin, []);
      while exists u: nat :: u < |txns| && pc[u] < |Updates(txns[u], amount(u))|
        invariant TotalsInv(txns, amount, begin, Now())
        decreases UpdatesLeft(txns, amount, pc, |txns|)
      {
        var u: nat :| u < |txns| && pc[u] < |Updates(txns[u], amount(u))|;
        UpdatesShrink(txns, amount, pc, u, |txns|);
        TotalsStepKeepsInv(txns, amount, begin, Now(), u);
        StepAdvances(txns, amount, begin, Now(), u);
        Step(txns, amount, begin, u);
      }
      FinishedIsSerial(txns, amount, begin, Now());
    }
  }
}
