/** The stock quantity of TPC-C (clause 2.4.2.2): the update rule, why the order of the updates does
    not matter, the compare-and-swap loop that relies on it, and the rule of Epic's GPU executor,
    which differs in one case. */
module Stock {
  import opened Execution
  import opened Locks
  import opened Machine
  import Progress

  const MAX_ORDER: nat := 10

  /** GAccO's rule and that of Epic's CPU executor. */
  function Deduct(quantity: uint32, order: uint32): uint32 {
    if quantity >= Add32(order, 10) then Sub32(quantity, order) else Sub32(Add32(quantity, 91), order)
  }

  /** The rule of Epic's GPU executor. */
  function EpicDeduct(quantity: uint32, order: uint32): uint32 {
    if quantity > Add32(order, 10) then Sub32(quantity, order) else Sub32(Add32(quantity, 91), order)
  }

  predicate InStock(quantity: int) { 10 <= quantity <= 100 }

  /** Within the range of the benchmark nothing wraps around. */
  lemma InRange(quantity: uint32, order: uint32)
    requires quantity <= 101 && order <= MAX_ORDER
    ensures Deduct(quantity, order) == if quantity >= order + 10 then quantity - order else quantity + 91 - order
    ensures EpicDeduct(quantity, order) == if quantity > order + 10 then quantity - order else quantity + 91 - order
  {}

  predicate OrdersOk(orders: seq<nat>) {
    forall i | 0 <= i < |orders| :: orders[i] <= MAX_ORDER
  }

  function Total(orders: seq<nat>): nat {
    if orders == [] then 0 else Total(orders[..|orders| - 1]) + orders[|orders| - 1]
  }

  // ------------------------------------------------------------------ one order after the other

  /** The quantity after a sequence of orders. */
  function Sell(quantity: nat, orders: seq<nat>): (q: uint32)
    requires InStock(quantity) && OrdersOk(orders)
    ensures InStock(q)
  {
    if orders == [] then quantity
    else
      InRange(Sell(quantity, orders[..|orders| - 1]), orders[|orders| - 1]);
      Deduct(Sell(quantity, orders[..|orders| - 1]), orders[|orders| - 1])
  }

  /** Equal modulo 91. */
  predicate Congruent(a: int, b: int) { (a - b) % 91 == 0 }

  /** In 10..100 a quantity is known by its residue. */
  lemma {:induction false} ResidueDecides(p: int, q: int)
    requires InStock(p) && InStock(q) && Congruent(p, q)
    ensures p == q
  {
    assert -91 < p - q < 91;
  }

  lemma SameResidue(a: int, b: int, c: int)
    requires Congruent(a, b) && Congruent(b, c)
    ensures Congruent(a, c)
  {}

  lemma Opposite(a: int, b: int)
    requires Congruent(a, b)
    ensures Congruent(b, a)
  {}

  /** Modulo 91 selling is subtraction. */
  lemma {:induction false} SellIsSubtraction(quantity: nat, orders: seq<nat>)
    requires InStock(quantity) && OrdersOk(orders)
    ensures Congruent(Sell(quantity, orders), quantity - Total(orders))
    decreases |orders|
  {
    if orders != [] {
      var n := |orders| - 1;
      SellIsSubtraction(quantity, orders[..n]);
      DeductIsSubtraction(Sell(quantity, orders[..n]), orders[n], quantity - Total(orders[..n]));
      hide Deduct, Congruent;
    }
  }

  lemma DeductIsSubtraction(quantity: uint32, order: uint32, a: int)
    requires quantity <= 101 && order <= MAX_ORDER && Congruent(quantity, a)
    ensures Congruent(Deduct(quantity, order), a - order) && Congruent(EpicDeduct(quantity, order), a - order)
  {
    InRange(quantity, order);
    hide Deduct, EpicDeduct;
  }

  lemma TotalAppend(a: seq<nat>, x: nat)
    ensures Total(a + [x]) == Total(a) + x
  {
    assert (a + [x])[..|a|] == a;
  }

  lemma {:induction false} TotalConcat(a: seq<nat>, b: seq<nat>)
    ensures Total(a + b) == Total(a) + Total(b)
  {
    if b == [] {
      assert a + b == a;
    } else {
      TotalConcat(a, b[..|b| - 1]);
      assert (a + b)[..|a + b| - 1] == a + b[..|b| - 1];
    }
  }

  lemma {:induction false} WithoutOne(b: seq<nat>, i: nat)
    requires i < |b|
    ensures multiset(b[..i] + b[i + 1..]) == multiset(b) - multiset{b[i]}
    ensures Total(b) == Total(b[..i] + b[i + 1..]) + b[i]
  {
    assert b == b[..i] + [b[i]] + b[i + 1..];
    TotalConcat(b[..i], b[i + 1..]);
    TotalConcat(b[..i] + [b[i]], b[i + 1..]);
    TotalConcat(b[..i], [b[i]]);
    assert Total([b[i]]) == b[i] by { assert [b[i]][..0] == []; }
  }

  /** The total depends on the multiset only. */
  lemma {:induction false} TotalOfMultiset(a: seq<nat>, b: seq<nat>)
    requires multiset(a) == multiset(b)
    ensures Total(a) == Total(b)
    decreases |a|
  {
    hide Total;
    if a == [] {
      assert |multiset(b)| == 0;
    } else {
      var i := PlaceOf(b, a[0]);
      WithoutOne(a, 0);
      WithoutOne(b, i);
      TotalOfMultiset(a[..0] + a[1..], b[..i] + b[i + 1..]);
    }
  }

  lemma PlaceOf(b: seq<nat>, x: nat) returns (i: nat)
    requires x in multiset(b)
    ensures i < |b| && b[i] == x
  {
    i :| 0 <= i < |b| && b[i] == x;
  }

  /** Commutativity: any order of the same orders leaves the same quantity. */
  lemma {:induction false} SellInAnyOrder(quantity: nat, a: seq<nat>, b: seq<nat>)
    requires InStock(quantity) && OrdersOk(a) && OrdersOk(b) && multiset(a) == multiset(b)
    ensures Sell(quantity, a) == Sell(quantity, b)
  {
    hide Sell, Total, Congruent;
    TotalOfMultiset(a, b);
    SellIsSubtraction(quantity, a);
    SellIsSubtraction(quantity, b);
    Opposite(Sell(quantity, b), quantity - Total(b));
    SameResidue(Sell(quantity, a), quantity - Total(a), Sell(quantity, b));
    ResidueDecides(Sell(quantity, a), Sell(quantity, b));
  }

  // ------------------------------------------------------------------ Epic's GPU rule

  /** Any quantity after any orders, in 32-bit arithmetic. */
  function EpicSell(quantity: uint32, orders: seq<uint32>): uint32 {
    if orders == [] then quantity
    else EpicDeduct(EpicSell(quantity, orders[..|orders| - 1]), orders[|orders| - 1])
  }

  lemma {:induction false} EpicSellInRange(quantity: uint32, orders: seq<uint32>)
    requires InStock(quantity) && OrdersOk(orders)
    ensures 10 <= EpicSell(quantity, orders) <= 101 && (orders != [] ==> 11 <= EpicSell(quantity, orders))
    decreases |orders|
  {
    if orders != [] {
      var n := |orders| - 1;
      EpicSellInRange(quantity, orders[..n]);
      InRange(EpicSell(quantity, orders[..n]), orders[n]);
      hide EpicDeduct;
    }
  }

  lemma EpicSellAppend(quantity: uint32, orders: seq<uint32>, order: uint32)
    ensures EpicSell(quantity, orders + [order]) == EpicDeduct(EpicSell(quantity, orders), order)
  {
    assert (orders + [order])[..|orders|] == orders;
    hide EpicDeduct;
  }

  lemma {:induction false} EpicSellConcat(quantity: uint32, a: seq<uint32>, b: seq<uint32>)
    ensures EpicSell(quantity, a + b) == EpicSell(EpicSell(quantity, a), b)
    decreases |b|
  {
    hide EpicDeduct;
    if b == [] {
      assert a + b == a;
    } else {
      var n := |b| - 1;
      EpicSellConcat(quantity, a, b[..n]);
      assert (a + b)[..|a + b| - 1] == a + b[..n];
    }
  }

  lemma {:induction false} EpicSellIsSubtraction(quantity: uint32, orders: seq<uint32>)
    requires InStock(quantity) && OrdersOk(orders)
    ensures Congruent(EpicSell(quantity, orders), quantity - Total(orders))
    decreases |orders|
  {
    if orders != [] {
      var n := |orders| - 1;
      EpicSellInRange(quantity, orders[..n]);
      EpicSellIsSubtraction(quantity, orders[..n]);
      DeductIsSubtraction(EpicSell(quantity, orders[..n]), orders[n], quantity - Total(orders[..n]));
      hide EpicDeduct, Congruent;
    }
  }

  /** The two rules give different quantities in exactly one case. */
  lemma {:induction false} RulesDifferIff(quantity: uint32, order: uint32)
    ensures EpicDeduct(quantity, order) != Deduct(quantity, order) <==> quantity == Add32(order, 10)
    ensures InStock(quantity) && order <= MAX_ORDER ==>
              (InStock(EpicDeduct(quantity, order)) <==> quantity != order + 10)
  {
    if InStock(quantity) && order <= MAX_ORDER { InRange(quantity, order); }
  }

  /** Over any orders the GPU executor's quantity is the right one, except that it has 101 where
      10 is right. */
  lemma {:induction false} EpicSellIs(quantity: uint32, orders: seq<uint32>)
    requires InStock(quantity) && OrdersOk(orders) && orders != []
    ensures EpicSell(quantity, orders) == if Sell(quantity, orders) == 10 then 101 else Sell(quantity, orders)
  {
    hide Sell, EpicSell, Total, Congruent;
    SellIsSubtraction(quantity, orders);
    EpicSellIsSubtraction(quantity, orders);
    EpicSellInRange(quantity, orders);
    var p, q, r := EpicSell(quantity, orders), Sell(quantity, orders), quantity - Total(orders);
    Opposite(q, r);
    SameResidue(p, r, q);
    OneAbove(p, q);
  }

  lemma OneAbove(p: int, q: int)
    requires Congruent(p, q) && 11 <= p <= 101 && InStock(q)
    ensures p == if q == 10 then 101 else q
  {
    assert -91 < p - q <= 91;
  }

  // ------------------------------------------------------------------ the locked path

  /** The orders for row k among the first g acts. */
  function OrdersOn(p: Program, k: Key, g: nat, quantity: nat -> nat): (orders: seq<nat>)
    requires g <= |p.acts|
  {
    if g == 0 then []
    else OrdersOn(p, k, g - 1, quantity) + (if p.acts[g - 1].kind == Work
      && p.acts[g - 1].key == k then [quantity(g - 1)] else [])
  }

  /** Act g works on row k by deducting its order from the row's first word. */
  ghost predicate WorkSells(p: Program, k: Key, quantity: nat -> nat) {
    forall g: nat, local: Local, q: uint32 | g < |p.acts| && p.acts[g].kind == Work && p.acts[g].key == k
           && InStock(q) ::
      SellsAt(p, quantity(g), g, local, q)
  }

  ghost predicate SellsAt(p: Program, order: nat, g: nat, local: Local, q: uint32) {
    order <= MAX_ORDER && p.work(g, local, [q]).0 == [Deduct(q, order)]
  }

  /** Under locks the row ends with the orders deducted in serial order. */
  lemma {:induction false} LockedSells(p: Program, rows: map<Key, Row>, k: Key, q: nat, quantity: nat -> nat, g: nat)
    requires WorkSells(p, k, quantity) && g <= |p.acts|
    requires k in rows && rows[k] == [q] && InStock(q)
    ensures OrdersOk(OrdersOn(p, k, g, quantity))
    ensures SerialData(p, rows, g).RowOf(k) == [Sell(q, OrdersOn(p, k, g, quantity))]
    decreases g
  {
    hide *;
    if g > 0 {
      LockedSells(p, rows, k, q, quantity, g - 1);
      OneMoreSold(p, rows, k, q, quantity, g - 1);
    } else {
      NothingSold(p, rows, k, q, quantity);
    }
  }

  lemma {:induction false} NothingSold(p: Program, rows: map<Key, Row>, k: Key, q: nat, quantity: nat -> nat)
    requires k in rows && rows[k] == [q] && InStock(q)
    ensures OrdersOk(OrdersOn(p, k, 0, quantity))
    ensures SerialData(p, rows, 0).RowOf(k) == [Sell(q, OrdersOn(p, k, 0, quantity))]
  {
    hide WorkSells;
    assert OrdersOn(p, k, 0, quantity) == [] && SerialData(p, rows, 0) == Data(rows, map[]);
  }

  lemma {:induction false} OneMoreSold(p: Program, rows: map<Key, Row>, k: Key, q: nat, quantity: nat -> nat, g: nat)
    requires WorkSells(p, k, quantity) && g < |p.acts| && InStock(q) && OrdersOk(OrdersOn(p, k, g, quantity))
    requires SerialData(p, rows, g).RowOf(k) == [Sell(q, OrdersOn(p, k, g, quantity))]
    ensures OrdersOk(OrdersOn(p, k, g + 1, quantity))
    ensures SerialData(p, rows, g + 1).RowOf(k) == [Sell(q, OrdersOn(p, k, g + 1, quantity))]
  {
    var was, a, d := OrdersOn(p, k, g, quantity), p.acts[g], SerialData(p, rows, g);
    if a.kind == Work && a.key == k {
      assert SellsAt(p, quantity(g), g, d.LocalOf(a.unit), Sell(q, was));
      hide WorkSells;
      assert OrdersOn(p, k, g + 1, quantity) == was + [quantity(g)];
      assert (was + [quantity(g)])[..|was|] == was;
    } else {
      hide WorkSells;
      assert OrdersOn(p, k, g + 1, quantity) == was;
    }
  }
}
