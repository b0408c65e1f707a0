/** The next order ids that districts have.  Generation hands out the ids, indexing copies them, and
    the executor stores them: a district has the id of its newest order, where clause 3.3.2.2 of TPC-C
    asks for one more. */
module OrderIds {
  import opened DeviceExecution
  import opened EpochWords
  import opened Execution
  import opened IndexedEpochs
  import opened TpccGenerator
  import opened TpccIndex
  import opened TpccKeys
  import opened TpccEpoch
  import opened TpccLanes
  import opened TpccRun
  import opened TpccSubmitter
  import opened TpccTables
  import opened TpccWords
  import Batch = BatchIndex
  import Money

  /** The values of every transaction, the next order ids being those of the inputs. */
  function InputIds(ins: seq<Input>, n: nat, values: (nat, nat) -> Values): (nat, nat) -> Values {
    (e: nat, u: nat) => WithId(ins, (e - 1) * n + u, values(e, u))
  }

  function WithId(ins: seq<Input>, i: int, v: Values): Values {
    if 0 <= i < |ins| && ins[i].NewOrderInput? then v.(nextOrderId := ins[i].oId) else v
  }

  /** Transaction t is indexed from input x and has its id. */
  ghost predicate IdCopied(x: Input, s: StaticRows, warehouses: nat, t: Params, v: Values) {
    && (t.NewOrder? <==> x.NewOrderInput?)
    && (x.NewOrderInput? ==>
          InRange(warehouses, x.w, x.d) && t.district == s.district(x.w, x.d) && v.nextOrderId == x.oId)
  }

  predicate InRange(warehouses: nat, w: nat, d: nat) { 1 <= w <= warehouses && 1 <= d <= 10 }

  lemma {:induction false} EpochCopies(config: TpccConfig, s: StaticRows, ins: seq<Input>, initial: Batch.Initial,
                                       e: nat, txns: seq<Params>, values: (nat, nat) -> Values, u: nat)
    requires IsEpochOf(config, s, ins, initial, e, txns) && u < |txns|
    ensures |txns| == config.numTxns && e * config.numTxns + config.numTxns <= |ins|
    ensures IdCopied(ins[e * config.numTxns + u], s, config.numWarehouses, txns[u],
                     InputIds(ins, config.numTxns, values)(e + 1, u))
  {
    hide AllFit, DeliveredLast, InTables, HasKeys, Known, IndexedFrom, HasRows, IdCopied, WithId;
    var found :| EpochIndexed(config, found, s, ins, initial, e, txns);
    IndexedAt(found, s, ins, initial, config.numWarehouses, e * config.numTxns, txns, u);
    CopiesId(found, s, ins, initial, config.numWarehouses, e * config.numTxns + u, txns[u], values(e + 1, u));
    assert (e + 1 - 1) * config.numTxns == e * config.numTxns;
  }

  lemma IndexedAt(found: Found, s: StaticRows, ins: seq<Input>, initial: Batch.Initial, warehouses: nat, first: nat,
                  txns: seq<Params>, u: nat)
    requires Known(ins, initial, warehouses) && IndexedFrom(found, s, ins, initial, warehouses, first, txns)
    requires u < |txns|
    ensures first + |txns| <= |ins| && HasRows(found, s, ins, initial, warehouses, first + u, txns[u])
  {
    hide HasRows, Known, HasKeys;
  }

  lemma CopiesId(found: Found, s: StaticRows, ins: seq<Input>, initial: Batch.Initial, warehouses: nat, i: nat,
                 t: Params, v: Values)
    requires Known(ins, initial, warehouses) && i < |ins| && HasRows(found, s, ins, initial, warehouses, i, t)
    ensures IdCopied(ins[i], s, warehouses, t, WithId(ins, i, v))
  {
    hide Known;
    if ins[i].NewOrderInput? { NewOrderInRange(ins, initial, warehouses, i); }
  }

  lemma NewOrderInRange(ins: seq<Input>, initial: Batch.Initial, warehouses: nat, i: nat)
    requires Known(ins, initial, warehouses) && i < |ins| && ins[i].NewOrderInput?
    ensures InRange(warehouses, ins[i].w, ins[i].d)
  {}

  /** Batch d is that of epoch d of the generated run. */
  ghost predicate AreEpochs(config: TpccConfig, s: StaticRows, ins: seq<Input>, initial: Batch.Initial,
                            batches: seq<seq<Params>>)
  {
    forall d: nat | d < |batches| :: IsEpochOf(config, s, ins, initial, d, batches[d])
  }

  lemma {:induction false} RunCopies(config: TpccConfig, s: StaticRows, ins: seq<Input>, initial: Batch.Initial,
                                     batches: seq<seq<Params>>, values: (nat, nat) -> Values, e: nat, j: nat)
    requires AreEpochs(config, s, ins, initial, batches) && e <= |batches| && config.numTxns > 0
    ensures |TxnsOfRun(batches, e)| == e * config.numTxns <= |ins|
    ensures j < e * config.numTxns ==>
              IdCopied(ins[j], s, config.numWarehouses, TxnsOfRun(batches, e)[j],
                       ValuesOfRun(batches, InputIds(ins, config.numTxns, values), e)(j))
    decreases e
  {
    hide IsEpochOf, IdCopied, InputIds;
    if e > 0 {
      var n := config.numTxns;
      RunCopies(config, s, ins, initial, batches, values, e - 1, j);
      EpochSize(config, s, ins, initial, e - 1, batches[e - 1]);
      assert e * n == (e - 1) * n + n;
      if (e - 1) * n <= j < e * n {
        EpochCopies(config, s, ins, initial, e - 1, batches[e - 1], values, j - (e - 1) * n);
      }
    }
  }

  lemma EpochSize(config: TpccConfig, s: StaticRows, ins: seq<Input>, initial: Batch.Initial, e: nat,
                  txns: seq<Params>)
    requires IsEpochOf(config, s, ins, initial, e, txns)
    ensures |txns| == config.numTxns && e * config.numTxns + config.numTxns <= |ins|
  {
    hide AllFit, DeliveredLast, InTables, HasKeys, Known, HasRows;
  }

  /** The rows of the districts are different. */
  ghost predicate DistrictsDiffer(s: StaticRows, warehouses: nat) {
    forall w: nat, d: nat, w': nat, d': nat | InRange(warehouses, w, d) && InRange(warehouses, w', d') ::
      s.district(w, d) == s.district(w', d') ==> w == w' && d == d'
  }

  lemma {:induction false} NewestIdIs(r: WordRun, ins: seq<Input>, s: StaticRows, warehouses: nat, w: nat, d: nat,
                                      u: nat)
    requires u <= |r.txns| <= |ins| && Generated(ins) && DistrictsDiffer(s, warehouses) && InRange(warehouses, w, d)
    requires forall j: nat | j < |r.txns| :: IdCopied(ins[j], s, warehouses, r.txns[j], r.values(j))
    requires r.begin(Key(DISTRICT, s.district(w, d)), D_NEXT_O_ID) == INITIAL_ORDERS
    ensures WordAfter(r, u, Key(DISTRICT, s.district(w, d)), D_NEXT_O_ID) == CurrOId(ins, w, d, u)
    decreases u
  {
    hide Generated, DistrictsDiffer, WordAfter;
    if u > 0 {
      NewestIdIs(r, ins, s, warehouses, w, d, u - 1);
      NextId(r, ins, s, warehouses, w, d, u - 1);
    } else {
      BeginsWith(r, s, w, d);
    }
  }

  lemma BeginsWith(r: WordRun, s: StaticRows, w: nat, d: nat)
    ensures WordAfter(r, 0, Key(DISTRICT, s.district(w, d)), D_NEXT_O_ID) ==
            r.begin(Key(DISTRICT, s.district(w, d)), D_NEXT_O_ID)
  {}

  lemma {:induction false} NextId(r: WordRun, ins: seq<Input>, s: StaticRows, warehouses: nat, w: nat, d: nat, u: nat)
    requires u < |r.txns| <= |ins| && Generated(ins) && DistrictsDiffer(s, warehouses) && InRange(warehouses, w, d)
    requires IdCopied(ins[u], s, warehouses, r.txns[u], r.values(u))
    requires WordAfter(r, u, Key(DISTRICT, s.district(w, d)), D_NEXT_O_ID) == CurrOId(ins, w, d, u)
    ensures WordAfter(r, u + 1, Key(DISTRICT, s.district(w, d)), D_NEXT_O_ID) == CurrOId(ins, w, d, u + 1)
  {
    hide Ordered, LastUnder, Quantity, EntriesOf, HasDelivered, HasDeliveredLine;
    assert IdIsRight(ins, u);
  }

  /** What a district's row says. */
  function NextOrderId(db: Database, s: StaticRows, w: nat, d: nat): nat {
    WordIn(db(Key(DISTRICT, s.district(w, d))), D_NEXT_O_ID)
  }

  /** After e epochs of a generated and indexed run every district has the id of its newest order. */
  lemma {:induction false} RunNextOrderId(config: TpccConfig, s: StaticRows, ins: seq<Input>, initial: Batch.Initial,
                                          batches: seq<seq<Params>>, values: (nat, nat) -> Values,
                                          width: nat -> nat, db: Database, after: Database, e: nat, i: nat, w: nat,
                                          d: nat)
    requires e <= |batches| && i == e * config.numTxns && config.numTxns > 0 && D_NEXT_O_ID < width(DISTRICT)
    requires after == SerialTpcc(batches, ExecutorLanes(InputIds(ins, config.numTxns, values)), width, db, e)
    requires NextOrderId(db, s, w, d) == INITIAL_ORDERS && Money.Sized(db, width)
    requires AreEpochs(config, s, ins, initial, batches) && Generated(ins)
    requires DistrictsDiffer(s, config.numWarehouses) && InRange(config.numWarehouses, w, d)
    ensures i <= |ins| && NextOrderId(after, s, w, d) == CurrOId(ins, w, d, i)
  {
    hide AreEpochs, Generated, DistrictsDiffer, Money.Sized, SerialTpcc, WordIn, WordAfter, IdCopied, InputIds;
    var vals := InputIds(ins, config.numTxns, values);
    var r := RunOn(batches, vals, width, db, e);
    forall j: nat | j < |r.txns| ensures |r.txns| <= |ins|
                                           && IdCopied(ins[j], s, config.numWarehouses, r.txns[j], r.values(j)) {
      RunCopies(config, s, ins, initial, batches, values, e, j);
    }
    RunCopies(config, s, ins, initial, batches, values, e, 0);
    NewestIdIs(r, ins, s, config.numWarehouses, w, d, |r.txns|);
    RunLeaves(batches, vals, width, db, e, Key(DISTRICT, s.district(w, d)), D_NEXT_O_ID);
  }
}
