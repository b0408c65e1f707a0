/** Which records the operations of YCSB transactions are about: keys are drawn until one fits, and
    the index gives every key its row. */
module YcsbGenerator {
  import opened RowIndex
  import opened TpccGenerator
  import opened YcsbSubmitter

  /** One operation as generated; transaction t of a run is operations 10 t to 10 t + 9. */
  datatype Operation = Operation(kind: OpType, key: nat, field: nat)

  function Inserts(ops: seq<Operation>, n: nat): (m: nat)
    requires n <= |ops|
    ensures m <= n
  {
    if n == 0 then 0 else Inserts(ops, n - 1) + (if ops[n - 1].kind == INSERT then 1 else 0)
  }

  /** The number of records that exist when n operations have been generated. */
  function Existing(ops: seq<Operation>, start: nat, n: nat): nat
    requires n <= |ops|
  {
    start + Inserts(ops, n)
  }

  /** x may be operation n: an INSERT takes the next key, another operation an existing one that its
      transaction has not taken before. */
  ghost predicate KeyFits(ops: seq<Operation>, start: nat, n: nat, x: Operation)
    requires n <= |ops|
  {
    if x.kind == INSERT then x.key == Existing(ops, start, n)
    else x.key < Existing(ops, start, n) && forall j: nat | n - n % PIECES <= j < n :: ops[j].key != x.key
  }

  ghost predicate KeyIsRight(ops: seq<Operation>, start: nat, n: nat)
    requires n < |ops|
  {
    KeyFits(ops, start, n, ops[n])
  }

  ghost predicate OpsGenerated(ops: seq<Operation>, start: nat) {
    forall n: nat | n < |ops| :: KeyIsRight(ops, start, n)
  }

  lemma {:induction false} InsertsMonotone(ops: seq<Operation>, m: nat, n: nat)
    requires m <= n <= |ops|
    ensures Inserts(ops, m) <= Inserts(ops, n)
    ensures m < n && ops[m].kind == INSERT ==> Inserts(ops, m) < Inserts(ops, n)
    decreases n - m
  {
    if m < n { InsertsMonotone(ops, m + 1, n); }
  }

  /** Every key exists when its operation is generated, or is made by it. */
  lemma {:induction false} KeyExists(ops: seq<Operation>, start: nat, m: nat, n: nat)
    requires OpsGenerated(ops, start) && m < n <= |ops|
    ensures ops[m].key < Existing(ops, start, n)
  {
    assert KeyIsRight(ops, start, m);
    InsertsMonotone(ops, m, n);
  }

  /** No two operations of a transaction have the same key. */
  lemma {:induction false} KeysDiffer(ops: seq<Operation>, start: nat, m: nat, n: nat)
    requires OpsGenerated(ops, start) && m < n < |ops| && m / PIECES == n / PIECES
    ensures ops[m].key != ops[n].key
  {
    assert KeyIsRight(ops, start, n);
    KeyExists(ops, start, m, n);
    assert n - n % PIECES <= m;
  }

  // ------------------------------------------------------------------ the generator

  lemma {:induction false} InsertsOfPrefix(ops: seq<Operation>, x: Operation, n: nat)
    requires n <= |ops|
    ensures Inserts(ops + [x], n) == Inserts(ops, n)
  {
    if n > 0 { InsertsOfPrefix(ops, x, n - 1); }
  }

  lemma {:induction false} OneMoreOperation(ops: seq<Operation>, start: nat, x: Operation)
    requires OpsGenerated(ops, start) && KeyFits(ops, start, |ops|, x)
    ensures OpsGenerated(ops + [x], start)
    ensures Existing(ops + [x], start, |ops| + 1) == Existing(ops, start, |ops|) + if x.kind == INSERT then 1 else 0
  {
    InsertsOfPrefix(ops, x, |ops|);
    forall n: nat | n < |ops + [x]| ensures KeyIsRight(ops + [x], start, n) {
      InsertsOfPrefix(ops, x, n);
      if n < |ops| { assert KeyIsRight(ops, start, n); }
    }
  }

  /** The draws of the skewed distribution are a list of any length; the original draws on for ever
      where this generator runs out of them. */
  class KeyGenerator {
    const start: nat
    var maxExistingRecord: nat
    const draws: seq<nat>
    var nextDraw: nat
    ghost var history: seq<Operation>

    ghost predicate Valid()
      reads this
    {
      OpsGenerated(history, start) && maxExistingRecord == Existing(history, start, |history|)
    }

    constructor (startingNumRecords: nat, draws: seq<nat>)
      ensures Valid() && history == [] && start == startingNumRecords
    {
      start, maxExistingRecord := startingNumRecords, startingNumRecords;
      this.draws, nextDraw := draws, 0;
      history := [];
    }

    /** Draws until the key exists and the transaction does not have it yet. */
    method DrawKey(keys: seq<nat>) returns (key: Option<nat>)
      modifies this`nextDraw
      ensures key.Some? ==> key.value < maxExistingRecord && key.value !in keys
      ensures key == None ==> nextDraw >= |draws|
    {
      while nextDraw < |draws| {
        var drawn := draws[nextDraw];
        nextDraw := nextDraw + 1;
        if drawn < maxExistingRecord && drawn !in keys {
          return Some(drawn);
        }
      }
      key := None;
    }

    /** The ten operations of the next transaction. */
    method GenerateTxn(types: seq<OpType>, fields: seq<nat>) returns (done: bool)
      requires Valid() && |types| == |fields| == PIECES && |history| % PIECES == 0
      modifies this
      ensures Valid() && old(history) <= history && (done ==> |history| == old(|history|) + PIECES)
      ensures !done ==> nextDraw >= |draws|
      ensures forall j: nat | old(|history|) + j < |history| ::
                j < PIECES && history[old(|history|) + j].kind == types[j]
                && history[old(|history|) + j].field == fields[j]
    {
      var keys: seq<nat> := [];
      for i := 0 to PIECES
        invariant Valid() && |history| == old(|history|) + i && old(history) <= history
        invariant |keys| == i && forall j: nat | j < i :: history[old(|history|) + j].key == keys[j]
        invariant forall j: nat | j < i ::
                    history[old(|history|) + j].kind == types[j] && history[old(|history|) + j].field == fields[j]
      {
        var key := maxExistingRecord;
        if types[i] == INSERT {
          maxExistingRecord := maxExistingRecord + 1;
        } else {
          var drawn := DrawKey(keys);
          if drawn == None {
            return false;
          }
          key := drawn.value;
        }
        ghost var x := Operation(types[i], key, fields[i]);
        assert |history| - |history| % PIECES == old(|history|);
        assert forall j: nat | old(|history|) <= j < |history| :: history[j].key == keys[j - old(|history|)];
        OneMoreOperation(history, start, x);
        history := history + [x];
        keys := keys + [key];
      }
      done := true;
    }
  }

  // ------------------------------------------------------------------ the index

  /** After n operations the index has the keys that exist then, each under itself. */
  ghost predicate RowsAreKeys(rows: map<nat, nat>, ops: seq<Operation>, start: nat, n: nat)
    requires n <= |ops|
  {
    && (forall k: nat :: k in rows <==> k < Existing(ops, start, n))
    && (forall k: nat | k in rows :: rows[k] == k)
  }

  /** What a transaction's thread puts into the insert buffer. */
  function InsertSlot(x: Operation): Option<nat> {
    if x.kind == INSERT then Some(x.key) else None
  }

  function InsertSlots(ops: seq<Operation>, n: nat, m: nat): (slots: seq<Option<nat>>)
    requires n + m <= |ops|
    ensures |slots| == m && forall q: nat | q < m :: slots[q] == InsertSlot(ops[n + q])
  {
    seq(m, q requires 0 <= q < m => InsertSlot(ops[n + q]))
  }

  /** The keys of the inserts are the next ones, in order. */
  lemma {:induction false} InsertsAreConsecutive(ops: seq<Operation>, start: nat, n: nat, m: nat)
    requires n + m <= |ops| && OpsGenerated(ops, start)
    ensures Existing(ops, start, n + m) == Existing(ops, start, n) + |Valid(InsertSlots(ops, n, m))|
    ensures forall i: nat | i < |Valid(InsertSlots(ops, n, m))| ::
              Valid(InsertSlots(ops, n, m))[i] == Existing(ops, start, n) + i
    decreases m
  {
    if m > 0 {
      InsertsAreConsecutive(ops, start, n, m - 1);
      assert InsertSlots(ops, n, m)[..m - 1] == InsertSlots(ops, n, m - 1);
      assert KeyIsRight(ops, start, n + m - 1);
    }
  }

  /** Pairing the batch's keys with the next free rows pairs every key with itself. */
  lemma {:induction false} PairedWithThemselves(was: map<nat, nat>, now: map<nat, nat>, ops: seq<Operation>, start: nat,
                                                n: nat, m: nat)
    requires n + m <= |ops| && OpsGenerated(ops, start) && RowsAreKeys(was, ops, start, n)
    requires Extends(was, now) && Paired(was, now, Valid(InsertSlots(ops, n, m)), {}, Existing(ops, start, n))
    requires forall k: nat :: k in now <==> k in was || k in Valid(InsertSlots(ops, n, m))
    ensures RowsAreKeys(now, ops, start, n + m)
  {
    hide Valid, Existing, OpsGenerated;
    InsertsAreConsecutive(ops, start, n, m);
    var keys, first := Valid(InsertSlots(ops, n, m)), Existing(ops, start, n);
    forall k: nat ensures k in keys <==> first <= k < first + |keys| {
      if first <= k < first + |keys| { assert keys[k - first] == k; }
    }
  }

  lemma {:induction false} RowsAfterBatch(was: map<nat, nat>, now: map<nat, nat>, ops: seq<Operation>, start: nat,
                                          n: nat, m: nat)
    requires n + m <= |ops| && OpsGenerated(ops, start) && RowsAreKeys(was, ops, start, n)
    requires Extends(was, now) && Paired(was, now, Valid(InsertSlots(ops, n, m)), {}, Existing(ops, start, n))
    requires forall k :: k in now <==> k in was || Some(k) in InsertSlots(ops, n, m)
    ensures RowsAreKeys(now, ops, start, n + m)
  {
    hide RowsAreKeys, Existing, OpsGenerated, Paired, Extends, InsertSlots;
    var slots := InsertSlots(ops, n, m);
    forall x: nat ensures x in Valid(slots) <==> Some(x) in slots { ValidHasAll(slots, x); }
    hide Valid;
    PairedWithThemselves(was, now, ops, start, n, m);
  }

  /** p has the kinds, the keys as rows, and the fields of the ten operations from n on. */
  ghost predicate Copies(p: Param, ops: seq<Operation>, n: nat)
    requires n + PIECES <= |ops|
  {
    && |p.types| == |p.records| == |p.fields| == PIECES
    && (forall i: nat | i < PIECES :: p.types[i] == ops[n + i].kind)
    && (forall i: nat | i < PIECES :: p.records[i] == ops[n + i].key)
    && (forall i: nat | i < PIECES :: p.fields[i] == ops[n + i].field)
  }

  lemma CopiesAgree(p: Param, q: Param, ops: seq<Operation>, n: nat)
    requires n + PIECES <= |ops| && Copies(p, ops, n) && Copies(q, ops, n)
    ensures p == q
  {
    assert p.types == q.types && p.records == q.records && p.fields == q.fields;
  }

  /** Transaction t with the rows of its keys. */
  function ParamAt(ops: seq<Operation>, t: nat): (p: Param)
    requires PIECES * t + PIECES <= |ops|
    ensures Copies(p, ops, PIECES * t)
  {
    Param(seq<OpType>(PIECES, i requires 0 <= i < PIECES => ops[PIECES * t + i].kind),
      seq<nat>(PIECES, i requires 0 <= i < PIECES => ops[PIECES * t + i].key),
      seq<nat>(PIECES, i requires 0 <= i < PIECES => ops[PIECES * t + i].field))
  }

  /** The k transactions from first on. */
  function ParamsFrom(ops: seq<Operation>, first: nat, k: nat): (ps: seq<Param>)
    requires PIECES * (first + k) <= |ops|
    ensures |ps| == k && forall t: nat | t < k :: ps[t] == ParamAt(ops, first + t)
  {
    seq(k, t requires 0 <= t < k => ParamAt(ops, first + t))
  }

  lemma ParamsFromOk(ops: seq<Operation>, first: nat, k: nat)
    requires PIECES * (first + k) <= |ops|
    ensures ParamsOk(ParamsFrom(ops, first, k))
  {
    forall t | 0 <= t < k ensures ParamsFrom(ops, first, k)[t] == ParamAt(ops, first + t) {}
  }

  function FirstKeys(n: nat): (keys: seq<nat>)
    ensures |keys| == n && forall k: nat | k < n :: keys[k] == k
  {
    seq(n, k requires 0 <= k < n => k)
  }

  class YcsbGpuIndex {
    const index: TableIndex<nat>
    const startingNumRecords: nat
    const numRecords: nat
    const numTxns: nat

    /** The index after n operations, none of which had to do without a free row. */
    ghost predicate Holds(ops: seq<Operation>, n: nat)
      requires n <= |ops|
      reads index, index.freeRows
    {
      && index.Ok() && index.insert.Length == PIECES * numTxns && index.freeRows.Length == numRecords
      && index.numLoaded == startingNumRecords && index.freeStart == Inserts(ops, n)
      && RowsAreKeys(index.rows, ops, startingNumRecords, n)
    }

    /** Loads keys 0, 1, 2, ... into rows 0, 1, 2, ... */
    constructor (startingNumRecords: nat, numRecords: nat, numTxns: nat)
      ensures forall ops: seq<Operation> :: Holds(ops, 0)
      ensures this.startingNumRecords == startingNumRecords && this.numRecords == numRecords && this.numTxns == numTxns
      ensures fresh(index) && fresh(index.freeRows) && fresh(index.insert) && fresh(index.validInsert)
    {
      this.startingNumRecords, this.numRecords, this.numTxns := startingNumRecords, numRecords, numTxns;
      index := new TableIndex(FirstKeys(startingNumRecords), numRecords, PIECES * numTxns);
      new;
      forall k: nat ensures k in index.rows <==> k < startingNumRecords {
        if k < startingNumRecords { assert FirstKeys(startingNumRecords)[k] in index.rows; }
      }
    }

    /** The threads of the batch put the keys of the inserts into the buffer. */
    method PrepareIndex(ops: seq<Operation>, n: nat, m: nat)
      requires n + m <= |ops| && m <= index.insert.Length
      modifies index.insert
      ensures index.insert[..m] == InsertSlots(ops, n, m)
    {
      for q := 0 to m
        invariant index.insert[..q] == InsertSlots(ops, n, m)[..q]
      {
        index.insert[q] := InsertSlot(ops[n + q]);
      }
    }

    /** Gives rows to the keys that the next m operations insert. */
    method InsertBatch(ops: seq<Operation>, n: nat, m: nat)
      requires OpsGenerated(ops, startingNumRecords) && n + m <= |ops| && m <= PIECES * numTxns
      requires Holds(ops, n) && Inserts(ops, n + m) <= numRecords
      modifies index, index.insert, index.validInsert
      ensures Holds(ops, n + m)
    {
      hide RowsAreKeys, Valid, Inserts, OpsGenerated, Paired, Injective, Below, Extends, NewFrom, InsertSlots;
      InsertsAreConsecutive(ops, startingNumRecords, n, m);
      PrepareIndex(ops, n, m);
      ghost var was := index.rows;
      index.IndexBatch(m);
      RowsAfterBatch(was, index.rows, ops, startingNumRecords, n, m);
    }

    /** One epoch of k transactions: every key is found, and its row is the key itself. */
    method IndexTxns(ops: seq<Operation>, first: nat, k: nat) returns (ps: seq<Param>)
      requires OpsGenerated(ops, startingNumRecords) && PIECES * (first + k) <= |ops| && k <= numTxns
      requires Holds(ops, PIECES * first) && Inserts(ops, PIECES * (first + k)) <= numRecords
      modifies index, index.insert, index.validInsert
      ensures Holds(ops, PIECES * (first + k)) && ps == ParamsFrom(ops, first, k)
      ensures |ps| == k && forall t: nat | t < k :: |ps[t].types| == |ps[t].records| == |ps[t].fields| == PIECES
      ensures forall t: nat, i: nat | t < k && i < PIECES ::
                && ps[t].types[i] == ops[PIECES * (first + t) + i].kind
                && ps[t].records[i] == ops[PIECES * (first + t) + i].key
                && ps[t].fields[i] == ops[PIECES * (first + t) + i].field
    {
      hide RowsAreKeys, Inserts, OpsGenerated;
      InsertBatch(ops, PIECES * first, PIECES * k);
      ps := FindAll(ops, first, k);
      forall t: nat | t < k ensures Copies(ps[t], ops, PIECES * (first + t)) {}
    }

    method FindAll(ops: seq<Operation>, first: nat, k: nat) returns (ps: seq<Param>)
      requires OpsGenerated(ops, startingNumRecords) && PIECES * (first + k) <= |ops|
      requires RowsAreKeys(index.rows, ops, startingNumRecords, PIECES * (first + k))
      ensures ps == ParamsFrom(ops, first, k)
      ensures forall t: nat | t < k :: Copies(ps[t], ops, PIECES * (first + t))
    {
      ps := [];
      for t := 0 to k
        invariant |ps| == t && ps == ParamsFrom(ops, first, t)
        invariant forall s: nat | s < t :: Copies(ps[s], ops, PIECES * (first + s))
      {
        var p := FindTxn(ops, PIECES * (first + t), PIECES * (first + k));
        CopiesAgree(p, ParamAt(ops, first + t), ops, PIECES * (first + t));
        ps := ps + [p];
      }
    }

    /** One thread: the row of every key, and a copy of the operation's kind and field. */
    method FindTxn(ops: seq<Operation>, n: nat, ghost end: nat) returns (p: Param)
      requires OpsGenerated(ops, startingNumRecords) && n + PIECES <= end <= |ops|
      requires RowsAreKeys(index.rows, ops, startingNumRecords, end)
      ensures Copies(p, ops, n)
    {
      var types: seq<OpType>, records: seq<nat>, fields: seq<nat> := [], [], [];
      for i := 0 to PIECES
        invariant |types| == |records| == |fields| == i
        invariant forall j: nat | j < i :: types[j] == ops[n + j].kind
        invariant forall j: nat | j < i :: records[j] == ops[n + j].key
        invariant forall j: nat | j < i :: fields[j] == ops[n + j].field
      {
        KeyExists(ops, startingNumRecords, n + i, end);
        records := records + [index.rows[ops[n + i].key]];
        types := types + [ops[n + i].kind];
        fields := fields + [ops[n + i].field];
      }
      p := Param(types, records, fields);
    }
  }

  /** The rows fit the table exactly as long as there are not more records than it has room for. */
  lemma {:induction false} RowsFitIff(rows: map<nat, nat>, ops: seq<Operation>, start: nat, n: nat, numRecords: nat)
    requires n <= |ops| && RowsAreKeys(rows, ops, start, n)
    ensures Below(rows, numRecords) <==> Existing(ops, start, n) <= numRecords
  {
    if Existing(ops, start, n) > numRecords { assert rows[numRecords] == numRecords; }
  }
}
