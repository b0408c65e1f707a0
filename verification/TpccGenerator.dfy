/** Who gets which order id.  Transactions are generated one after the other for all epochs; the
    counters of a district and of a warehouse hand out the ids. */
module TpccGenerator {

  const INITIAL_ORDERS: nat := 3000
  const INITIAL_DELIVERED: nat := 2100

  /** A transaction as generated; a NewOrder has its item ids and the warehouses that supply them. */
  datatype Input =
    | NewOrderInput(w: nat, d: nat, c: nat, oId: nat, items: seq<nat>, supply: seq<nat>)
    | PaymentInput(w: nat, d: nat, cw: nat, cd: nat, c: nat)
    | OrderStatusInput(w: nat, d: nat, c: nat, oId: nat)
    | DeliveryInput(w: nat, oId: nat)
    | StockLevelInput(w: nat, d: nat, oId: nat)

  function OrdersBefore(ins: seq<Input>, w: nat, d: nat, i: nat): (n: nat)
    requires i <= |ins|
    ensures n <= i
  {
    if i == 0 then 0
    else OrdersBefore(ins, w, d, i - 1) + (if ins[i - 1].NewOrderInput? && ins[i - 1].w == w && ins[i - 1].d == d then 1
      else 0)
  }

  function DeliveriesBefore(ins: seq<Input>, w: nat, i: nat): (n: nat)
    requires i <= |ins|
    ensures n <= i
  {
    if i == 0 then 0 else DeliveriesBefore(ins, w, i - 1) + (if ins[i - 1].DeliveryInput? && ins[i - 1].w == w then 1
      else 0)
  }

  /** The newest order id of a district when i transactions have been generated. */
  function CurrOId(ins: seq<Input>, w: nat, d: nat, i: nat): nat
    requires i <= |ins|
  {
    INITIAL_ORDERS + OrdersBefore(ins, w, d, i)
  }

  /** Every district of the warehouse already has a newer order than oId. */
  ghost predicate HasOrder(ins: seq<Input>, w: nat, oId: nat, i: nat)
    requires i <= |ins|
  {
    forall d: nat | 1 <= d <= 10 :: oId < CurrOId(ins, w, d, i)
  }

  /** x has the id that the generator gives it after i transactions. */
  ghost predicate IdFor(ins: seq<Input>, i: nat, x: Input)
    requires i <= |ins|
  {
    match x
    case NewOrderInput(w, d, _, oId, _, _) => oId == CurrOId(ins, w, d, i) + 1
    case PaymentInput(_, _, _, _, _) => true
    case OrderStatusInput(w, d, _, oId) => oId == CurrOId(ins, w, d, i)
    case DeliveryInput(w, oId) => oId == INITIAL_DELIVERED + DeliveriesBefore(ins, w, i) + 1 && HasOrder(ins, w, oId, i)
    case StockLevelInput(w, d, oId) => oId == CurrOId(ins, w, d, i)
  }

  ghost predicate IdIsRight(ins: seq<Input>, i: nat)
    requires i < |ins|
  {
    IdFor(ins, i, ins[i])
  }

  ghost predicate Generated(ins: seq<Input>) {
    forall i: nat | i < |ins| :: IdIsRight(ins, i)
  }

  // ------------------------------------------------------------------ facts about the ids

  lemma {:induction false} OrdersMonotone(ins: seq<Input>, w: nat, d: nat, i: nat, j: nat)
    requires i <= j <= |ins|
    ensures OrdersBefore(ins, w, d, i) <= OrdersBefore(ins, w, d, j)
    ensures i < j && ins[i].NewOrderInput? && ins[i].w == w && ins[i].d == d ==>
              OrdersBefore(ins, w, d, i) < OrdersBefore(ins, w, d, j)
    decreases j - i
  {
    if i < j { OrdersMonotone(ins, w, d, i + 1, j); }
  }

  lemma {:induction false} DeliveriesMonotone(ins: seq<Input>, w: nat, i: nat, j: nat)
    requires i <= j <= |ins|
    ensures DeliveriesBefore(ins, w, i) <= DeliveriesBefore(ins, w, j)
    ensures i < j && ins[i].DeliveryInput? && ins[i].w == w
            ==> DeliveriesBefore(ins, w, i) < DeliveriesBefore(ins, w, j)
    decreases j - i
  {
    if i < j { DeliveriesMonotone(ins, w, i + 1, j); }
  }

  /** Order ids of a district grow in generation order: an order is older than transaction i
      exactly when its id is at most the district's newest id at i. */
  lemma {:induction false} IdsGrow(ins: seq<Input>, i: nat, j: nat)
    requires Generated(ins) && i <= |ins| && j < |ins| && ins[j].NewOrderInput?
    ensures j < i <==> ins[j].oId <= CurrOId(ins, ins[j].w, ins[j].d, i)
  {
    assert IdIsRight(ins, j);
    var w, d := ins[j].w, ins[j].d;
    if j < i {
      OrdersMonotone(ins, w, d, j, i);
    } else {
      OrdersMonotone(ins, w, d, i, j);
    }
  }

  /** No two orders of a district have the same id. */
  lemma {:induction false} IdsDiffer(ins: seq<Input>, i: nat, j: nat)
    requires Generated(ins) && i < j < |ins| && ins[i].NewOrderInput? && ins[j].NewOrderInput?
    requires ins[i].w == ins[j].w && ins[i].d == ins[j].d
    ensures ins[i].oId < ins[j].oId
  {
    IdsGrow(ins, j, i);
    assert IdIsRight(ins, j);
  }

  /** An order is delivered at most once ... */
  lemma {:induction false} DeliveredOnce(ins: seq<Input>, i: nat, j: nat)
    requires Generated(ins) && i < j < |ins| && ins[i].DeliveryInput? && ins[j].DeliveryInput? && ins[i].w == ins[j].w
    ensures ins[i].oId < ins[j].oId
  {
    assert IdIsRight(ins, i) && IdIsRight(ins, j);
    DeliveriesMonotone(ins, ins[i].w, i, j);
  }

  /** ... and only after it was placed. */
  lemma {:induction false} DeliveredAfterOrdered(ins: seq<Input>, i: nat, j: nat)
    requires Generated(ins) && i < |ins| && j < |ins| && ins[i].DeliveryInput? && ins[j].NewOrderInput?
    requires ins[i].w == ins[j].w && 1 <= ins[j].d <= 10 && ins[i].oId == ins[j].oId
    ensures j < i
  {
    assert IdIsRight(ins, i);
    IdsGrow(ins, i, j);
  }

  /** The newest order of a customer when the first i transactions have run: customer c begins
      with order c. */
  function NewestOrder(ins: seq<Input>, w: nat, d: nat, c: nat, i: nat): nat
    requires i <= |ins|
  {
    if i == 0 then c
    else if ins[i - 1].NewOrderInput? && ins[i - 1].w == w && ins[i - 1].d == d && ins[i - 1].c == c then ins[i - 1].oId
    else NewestOrder(ins, w, d, c, i - 1)
  }

  /** Order o of the district was loaded initially or placed by one of the first n
      transactions. */
  ghost predicate Placed(ins: seq<Input>, w: nat, d: nat, c: nat, o: nat, n: nat)
    requires n <= |ins|
  {
    o == c || exists j: nat :: j < n && PlacedBy(ins, w, d, c, o, j)
  }

  predicate PlacedBy(ins: seq<Input>, w: nat, d: nat, c: nat, o: nat, j: nat)
    requires j < |ins|
  {
    ins[j].NewOrderInput? && ins[j].w == w && ins[j].d == d && ins[j].c == c && ins[j].oId == o
  }

  lemma {:induction false} NewestIsPlaced(ins: seq<Input>, w: nat, d: nat, c: nat, i: nat)
    requires Generated(ins) && i <= |ins| && 1 <= c <= INITIAL_ORDERS
    ensures var s := NewestOrder(ins, w, d, c, i);
            && Placed(ins, w, d, c, s, i)
            && c <= s <= CurrOId(ins, w, d, i)
  {
    if i > 0 {
      NewestIsPlaced(ins, w, d, c, i - 1);
      assert IdIsRight(ins, i - 1);
      if ins[i - 1].NewOrderInput? && ins[i - 1].w == w && ins[i - 1].d == d && ins[i - 1].c == c {
        assert PlacedBy(ins, w, d, c, ins[i - 1].oId, i - 1);
      } else {
        var s := NewestOrder(ins, w, d, c, i - 1);
        if s != c {
          var j: nat :| j < i - 1 && PlacedBy(ins, w, d, c, s, j);
          assert PlacedBy(ins, w, d, c, s, j);
        }
      }
    }
  }

  /** It is indeed the newest: every order that the customer has placed by then has an id that is
      no larger. */
  lemma {:induction false} NewestIsLargest(ins: seq<Input>, w: nat, d: nat, c: nat, i: nat, j: nat)
    requires Generated(ins) && j < i <= |ins| && 1 <= c <= INITIAL_ORDERS
    requires ins[j].NewOrderInput? && ins[j].w == w && ins[j].d == d && ins[j].c == c
    ensures ins[j].oId <= NewestOrder(ins, w, d, c, i)
    decreases i
  {
    if ins[i - 1].NewOrderInput? && ins[i - 1].w == w && ins[i - 1].d == d && ins[i - 1].c == c {
      if j < i - 1 { IdsDiffer(ins, j, i - 1); }
    } else {
      NewestIsLargest(ins, w, d, c, i - 1, j);
    }
  }

  // ------------------------------------------------------------------ the generator

  function Range(lo: nat, hi: nat): (r: set<nat>)
    ensures forall j: nat :: j in r <==> lo <= j < hi
  {
    if lo < hi then Range(lo, hi - 1) + {hi - 1} else {}
  }

  datatype Option<T> = None | Some(value: T)

  const WAREHOUSES: nat := 256
  const DISTRICTS: nat := 20

  lemma {:induction false} CountsOfPrefix(ins: seq<Input>, x: Input, w: nat, d: nat, i: nat)
    requires i <= |ins|
    ensures OrdersBefore(ins + [x], w, d, i) == OrdersBefore(ins, w, d, i)
    ensures DeliveriesBefore(ins + [x], w, i) == DeliveriesBefore(ins, w, i)
  {
    if i > 0 { CountsOfPrefix(ins, x, w, d, i - 1); }
  }

  lemma {:induction false} HasOrderPrefix(ins: seq<Input>, x: Input, w: nat, oId: nat, i: nat)
    requires i <= |ins|
    ensures HasOrder(ins + [x], w, oId, i) <==> HasOrder(ins, w, oId, i)
  {
    forall d: nat ensures CurrOId(ins + [x], w, d, i) == CurrOId(ins, w, d, i) {
      CountsOfPrefix(ins, x, w, d, i);
    }
  }

  lemma {:induction false} IdForPrefix(ins: seq<Input>, x: Input, i: nat, y: Input)
    requires i <= |ins|
    ensures IdFor(ins + [x], i, y) <==> IdFor(ins, i, y)
  {
    match y
    case NewOrderInput(w, d, _, _, _, _) => CountsOfPrefix(ins, x, w, d, i);
    case PaymentInput(_, _, _, _, _) =>
    case OrderStatusInput(w, d, _, _) => CountsOfPrefix(ins, x, w, d, i);
    case DeliveryInput(w, oId) =>
      CountsOfPrefix(ins, x, w, 1, i);
      HasOrderPrefix(ins, x, w, oId, i);
      hide HasOrder;
    case StockLevelInput(w, d, _) => CountsOfPrefix(ins, x, w, d, i);
  }

  lemma {:induction false} GeneratedPrefix(ins: seq<Input>, x: Input)
    requires Generated(ins) && IdFor(ins, |ins|, x)
    ensures Generated(ins + [x])
  {
    forall i: nat | i < |ins + [x]| ensures IdIsRight(ins + [x], i) {
      if i < |ins| { assert IdIsRight(ins, i); }
      IdForPrefix(ins, x, i, (ins + [x])[i]);
    }
  }

  class TpccOIdGenerator {
    const nextOidCounter: array2<nat>
    const nextDeliverOidCounter: array<nat>
    ghost var history: seq<Input>

    ghost predicate Counts()
      reads this, nextOidCounter, nextDeliverOidCounter
    {
      && nextOidCounter.Length0 == WAREHOUSES == nextDeliverOidCounter.Length && nextOidCounter.Length1 == DISTRICTS
      && (forall w: nat, d: nat | w < WAREHOUSES && d < DISTRICTS ::
            nextOidCounter[w, d] == CurrOId(history, w + 1, d + 1, |history|))
      && (forall w: nat | w < WAREHOUSES ::
            nextDeliverOidCounter[w] == INITIAL_DELIVERED + DeliveriesBefore(history, w + 1, |history|))
    }

    ghost predicate Valid()
      reads this, nextOidCounter, nextDeliverOidCounter
    {
      Counts() && Generated(history)
    }

    constructor ()
      ensures Valid() && history == []
      ensures fresh(nextOidCounter) && fresh(nextDeliverOidCounter)
    {
      nextOidCounter := new nat[WAREHOUSES, DISTRICTS]((_, _) => INITIAL_ORDERS);
      nextDeliverOidCounter := new nat[WAREHOUSES](_ => INITIAL_DELIVERED);
      history := [];
    }

    /** Extends the history by a transaction for which the counters have been advanced. */
    ghost method Record(x: Input)
      requires nextOidCounter.Length0 == WAREHOUSES == nextDeliverOidCounter.Length
               && nextOidCounter.Length1 == DISTRICTS
      requires forall w: nat, d: nat | w < WAREHOUSES && d < DISTRICTS ::
                 nextOidCounter[w, d] == CurrOId(history, w + 1, d + 1, |history|)
                                         + (if x.NewOrderInput? && x.w == w + 1 && x.d == d + 1 then 1 else 0)
      requires forall w: nat | w < WAREHOUSES ::
                 nextDeliverOidCounter[w] == INITIAL_DELIVERED + DeliveriesBefore(history, w + 1, |history|)
                                             + (if x.DeliveryInput? && x.w == w + 1 then 1 else 0)
      requires Generated(history)
      requires IdFor(history, |history|, x)
      modifies this`history
      ensures Valid() && history == old(history) + [x]
    {
      var was := history;
      forall w: nat, d: nat ensures OrdersBefore(was + [x], w, d, |was|) == OrdersBefore(was, w, d, |was|) {
        CountsOfPrefix(was, x, w, d, |was|);
      }
      forall w: nat ensures DeliveriesBefore(was + [x], w, |was|) == DeliveriesBefore(was, w, |was|) {
        CountsOfPrefix(was, x, w, 0, |was|);
      }
      GeneratedPrefix(was, x);
      history := was + [x];
    }

    method NewOrder(w: nat, d: nat, c: nat, items: seq<nat>, supply: seq<nat>) returns (txn: Input)
      requires Valid() && 1 <= w <= WAREHOUSES && 1 <= d <= DISTRICTS
      modifies this`history, nextOidCounter
      ensures Valid() && history == old(history) + [txn]
      ensures txn.NewOrderInput? && txn == NewOrderInput(w, d, c, txn.oId, items, supply)
    {
      nextOidCounter[w - 1, d - 1] := nextOidCounter[w - 1, d - 1] + 1;
      txn := NewOrderInput(w, d, c, nextOidCounter[w - 1, d - 1], items, supply);
      Record(txn);
    }

    method OrderStatus(w: nat, d: nat, c: nat) returns (txn: Input)
      requires Valid() && 1 <= w <= WAREHOUSES && 1 <= d <= DISTRICTS
      modifies this`history
      ensures Valid() && history == old(history) + [txn]
      ensures txn.OrderStatusInput? && txn == OrderStatusInput(w, d, c, txn.oId)
    {
      txn := OrderStatusInput(w, d, c, nextOidCounter[w - 1, d - 1]);
      Record(txn);
    }

    method StockLevel(w: nat, d: nat) returns (txn: Input)
      requires Valid() && 1 <= w <= WAREHOUSES && 1 <= d <= DISTRICTS
      modifies this`history
      ensures Valid() && history == old(history) + [txn]
      ensures txn.StockLevelInput? && txn == StockLevelInput(w, d, txn.oId)
    {
      txn := StockLevelInput(w, d, nextOidCounter[w - 1, d - 1]);
      Record(txn);
    }

    /** A Delivery for which some district has no newer order yet fails the generator's
        assertion. */
    method Delivery(w: nat) returns (txn: Option<Input>)
      requires Valid() && 1 <= w <= WAREHOUSES
      modifies this`history, nextDeliverOidCounter
      ensures var oId := old(nextDeliverOidCounter[w - 1]) + 1;
              if old(HasOrder(history, w, oId, |history|)) then
                txn == Some(DeliveryInput(w, oId)) && Valid() && history == old(history) + [txn.value]
              else txn == None
    {
      nextDeliverOidCounter[w - 1] := nextDeliverOidCounter[w - 1] + 1;
      var retval := nextDeliverOidCounter[w - 1];
      var d := 0;
      while d < 10
        invariant 0 <= d <= 10 && forall e: nat | 1 <= e <= d :: retval < CurrOId(history, w, e, |history|)
      {
        if retval >= nextOidCounter[w - 1, d] {
          assert retval >= CurrOId(history, w, d + 1, |history|);
          return None;
        }
        d := d + 1;
      }
      txn := Some(DeliveryInput(w, retval));
      Record(txn.value);
    }
  }
}
