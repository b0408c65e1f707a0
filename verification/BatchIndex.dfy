/** The batch index: a sorted map of all orders and a cache of what is in them.  The orders of a
    whole epoch are inserted before any of its queries is answered. */
module BatchIndex {
  import opened TpccGenerator

  const MAX_O_ID: nat := 0xF_FFFF

  function CustomerBits(c: nat, d: nat, w: nat): nat {
    c % 0x1000 + (d % 0x10) * 0x1000 + (w % 0x40) * 0x1_0000
  }

  /** The packed key: order, customer, district and warehouse in 20, 12, 4 and 6 bits; bits that do
      not fit are lost. */
  function Pack(o: nat, c: nat, d: nat, w: nat): nat {
    o % 0x10_0000 + CustomerBits(c, d, w) * 0x10_0000
  }

  function OrderBits(key: nat): nat { key % 0x10_0000 }

  /** An order's key holds the complement of its id, so that newer orders come first. */
  function OrderKey(w: nat, d: nat, c: nat, o: nat): nat
    requires o <= MAX_O_ID
  {
    Pack(MAX_O_ID - o, c, d, w)
  }

  predicate InBits(w: nat, d: nat, c: nat) {
    1 <= w <= 64 && 1 <= d <= 10 && 1 <= c <= INITIAL_ORDERS
  }

  /** Warehouse 64 is packed as 0, which no other warehouse is, so nothing is confused. */
  lemma CustomerBitsInjective(c: nat, d: nat, w: nat, c': nat, d': nat, w': nat)
    requires InBits(w, d, c) && InBits(w', d', c')
    ensures CustomerBits(c, d, w) == CustomerBits(c', d', w') <==> c == c' && d == d' && w == w'
  {
    assert c % 0x1000 == c && c' % 0x1000 == c' && d % 0x10 == d && d' % 0x10 == d';
    DigitsDiffer(c, d, w % 0x40, c', d', w' % 0x40);
    SameWarehouse(w, w');
  }

  lemma DigitsDiffer(c: nat, d: nat, w: nat, c': nat, d': nat, w': nat)
    requires c < 0x1000 && c' < 0x1000 && d < 0x10 && d' < 0x10
    ensures c + d * 0x1000 + w * 0x1_0000 == c' + d' * 0x1000 + w' * 0x1_0000 <==> c == c' && d == d' && w == w'
  {
    if c + d * 0x1000 + w * 0x1_0000 == c' + d' * 0x1000 + w' * 0x1_0000 {
      assert c == c' && d + w * 0x10 == d' + w' * 0x10;
    }
  }

  lemma SameWarehouse(w: nat, w': nat)
    requires 1 <= w <= 64 && 1 <= w' <= 64
    ensures w % 0x40 == w' % 0x40 <==> w == w'
  {}

  lemma InBlock(x: nat, b: nat, lo: nat, hi: nat, b': nat)
    requires lo <= hi < 0x10_0000 && x < 0x10_0000
    ensures lo + b * 0x10_0000 <= x + b' * 0x10_0000 <= hi + b * 0x10_0000 <==> b' == b && lo <= x <= hi
  {}

  /** The keys between a customer's bound and the end of the customer's range are the keys of the
      customer's orders up to the bound. */
  lemma {:induction false} RangeIsCustomer(w: nat, d: nat, c: nat, bound: nat, w': nat, d': nat, c': nat, o: nat)
    requires bound <= MAX_O_ID && o <= MAX_O_ID && InBits(w, d, c) && InBits(w', d', c')
    ensures OrderKey(w, d, c, bound) <= OrderKey(w', d', c', o) <= Pack(MAX_O_ID, c, d, w) <==>
            w' == w && d' == d && c' == c && o <= bound
  {
    hide CustomerBits;
    CustomerBitsInjective(c, d, w, c', d', w');
    InBlock(MAX_O_ID - o, CustomerBits(c, d, w), MAX_O_ID - bound, MAX_O_ID, CustomerBits(c', d', w'));
  }

  lemma UnpackOrder(w: nat, d: nat, c: nat, o: nat)
    requires o <= MAX_O_ID
    ensures MAX_O_ID - OrderBits(OrderKey(w, d, c, o)) == o
  {}

  // ------------------------------------------------------------------ what is in the index

  /** The ids that occur fit the key's bits. */
  ghost predicate InputsFit(ins: seq<Input>, warehouses: nat) {
    && warehouses <= 64
    && (forall i: nat | i < |ins| ::
          match ins[i]
          case NewOrderInput(w, d, c, oId, items, supply) =>
            w <= warehouses && InBits(w, d, c) && oId <= MAX_O_ID && |supply| == |items| <= INITIAL_ITEMS
          case PaymentInput(_, _, _, _, _) => true
          case OrderStatusInput(w, d, c, oId) => w <= warehouses && InBits(w, d, c) && oId <= MAX_O_ID
          case DeliveryInput(w, oId) => 1 <= w <= warehouses && oId <= MAX_O_ID
          case StockLevelInput(w, d, oId) => w <= warehouses && InBits(w, d, 1) && oId <= MAX_O_ID)
  }

  /** Order o of the customer was loaded initially or placed by one of the transactions in done. */
  ghost predicate PlacedIn(ins: seq<Input>, w: nat, d: nat, c: nat, o: nat, done: set<nat>) {
    o == c || exists j: nat :: j in done && j < |ins| && PlacedBy(ins, w, d, c, o, j)
  }

  ghost predicate Exists(ins: seq<Input>, warehouses: nat, w: nat, d: nat, c: nat, o: nat, done: set<nat>) {
    w <= warehouses && InBits(w, d, c) && o <= MAX_O_ID && PlacedIn(ins, w, d, c, o, done)
  }

  ghost predicate IsKey(ins: seq<Input>, warehouses: nat, done: set<nat>, key: nat) {
    exists w: nat, d: nat, c: nat, o: nat :: Exists(ins, warehouses, w, d, c, o, done) && key == OrderKey(w, d, c, o)
  }

  /** The tree has the keys of the initial orders and of those of the transactions in done. */
  ghost predicate TreeHolds(tree: set<nat>, ins: seq<Input>, warehouses: nat, done: set<nat>) {
    forall key: nat :: key in tree <==> IsKey(ins, warehouses, done, key)
  }

  /** All transactions before i are in done. */
  ghost predicate HasFirst(done: set<nat>, i: nat) {
    forall j: nat | j < i :: j in done
  }

  /** The smallest key of the tree in lo..hi. */
  ghost predicate IsNext(tree: set<nat>, lo: nat, hi: nat, key: nat) {
    key in tree && lo <= key <= hi && forall k | k in tree && lo <= k <= hi :: key <= k
  }

  /** An order of the customer that is in the index now and is no newer than the bound that
      transaction i took when it was generated, is no newer than the customer's newest order then:
      later orders of the epoch do not show, whether they are in the index already or not. */
  lemma {:induction false} BoundExcludesLater(ins: seq<Input>, warehouses: nat, w: nat, d: nat, c: nat, o: nat, i: nat,
                                              done: set<nat>)
    requires Generated(ins) && i <= |ins| && Exists(ins, warehouses, w, d, c, o, done) && o <= CurrOId(ins, w, d, i)
    ensures o <= NewestOrder(ins, w, d, c, i)
  {
    if o == c {
      NewestIsPlaced(ins, w, d, c, i);
    } else {
      var j: nat :| j in done && j < |ins| && PlacedBy(ins, w, d, c, o, j);
      IdsGrow(ins, i, j);
      NewestIsLargest(ins, w, d, c, i, j);
    }
  }

  lemma {:induction false} PlacedIsIn(ins: seq<Input>, w: nat, d: nat, c: nat, o: nat, i: nat, done: set<nat>)
    requires i <= |ins| && HasFirst(done, i) && Placed(ins, w, d, c, o, i)
    ensures PlacedIn(ins, w, d, c, o, done)
  {
    if o != c {
      var j: nat :| j < i && PlacedBy(ins, w, d, c, o, j);
      assert PlacedBy(ins, w, d, c, o, j);
    }
  }

  /** The batch index gives the serial answer: whatever orders of the epoch are in the tree besides
      those placed before transaction i, the next key after the bound is that of the newest order
      that the customer had placed among the transactions generated before. */
  lemma {:induction false} OrderStatusIsSerial(tree: set<nat>, ins: seq<Input>, warehouses: nat, i: nat,
                                               done: set<nat>, key: nat)
    requires Generated(ins) && InputsFit(ins, warehouses) && i < |ins| && ins[i].OrderStatusInput?
    requires TreeHolds(tree, ins, warehouses, done) && HasFirst(done, i)
    ensures var q := ins[i];
            var newest := NewestOrder(ins, q.w, q.d, q.c, i);
            && q.oId <= MAX_O_ID && newest <= MAX_O_ID
            && (IsNext(tree, OrderKey(q.w, q.d, q.c, q.oId), Pack(MAX_O_ID, q.c, q.d, q.w), key)
                <==> key == OrderKey(q.w, q.d, q.c, newest))
  {
    var q := ins[i];
    assert IdIsRight(ins, i);
    NewestIsPlaced(ins, q.w, q.d, q.c, i);
    var newest := NewestOrder(ins, q.w, q.d, q.c, i);
    PlacedIsIn(ins, q.w, q.d, q.c, newest, i, done);
    assert Exists(ins, warehouses, q.w, q.d, q.c, newest, done);
    var lo, hi, best := OrderKey(q.w, q.d, q.c, q.oId), Pack(MAX_O_ID, q.c, q.d, q.w), OrderKey(q.w, q.d, q.c, newest);
    assert IsKey(ins, warehouses, done, best);
    RangeIsCustomer(q.w, q.d, q.c, q.oId, q.w, q.d, q.c, newest);
    forall k | k in tree && lo <= k <= hi ensures best <= k {
      KeyInRange(ins, warehouses, i, done, k);
    }
    hide OrderKey, Pack, TreeHolds;
    assert IsNext(tree, lo, hi, best);
  }

  lemma {:induction false} KeyInRange(ins: seq<Input>, warehouses: nat, i: nat, done: set<nat>, key: nat)
    requires Generated(ins) && InputsFit(ins, warehouses) && i < |ins| && ins[i].OrderStatusInput?
    requires IsKey(ins, warehouses, done, key) && ins[i].oId <= MAX_O_ID
    requires OrderKey(ins[i].w, ins[i].d, ins[i].c, ins[i].oId) <= key <= Pack(MAX_O_ID, ins[i].c, ins[i].d, ins[i].w)
    requires NewestOrder(ins, ins[i].w, ins[i].d, ins[i].c, i) <= MAX_O_ID
    ensures OrderKey(ins[i].w, ins[i].d, ins[i].c, NewestOrder(ins, ins[i].w, ins[i].d, ins[i].c, i)) <= key
  {
    var q := ins[i];
    var w: nat, d: nat, c: nat, o: nat :| Exists(ins, warehouses, w, d, c, o, done) && key == OrderKey(w, d, c, o);
    RangeIsCustomer(q.w, q.d, q.c, q.oId, w, d, c, o);
    assert IdIsRight(ins, i);
    BoundExcludesLater(ins, warehouses, q.w, q.d, q.c, o, i, done);
    KeysDescend(q.w, q.d, q.c, NewestOrder(ins, q.w, q.d, q.c, i), o);
  }

  lemma KeysDescend(w: nat, d: nat, c: nat, o: nat, o': nat)
    requires o <= MAX_O_ID && o' <= MAX_O_ID
    ensures OrderKey(w, d, c, o) <= OrderKey(w, d, c, o') <==> o' <= o
  {}

  // ------------------------------------------------------------------ the order cache

  /** The slot of an order in the cache arrays. */
  function CacheIdx(slots: nat, w: nat, d: nat, o: nat): int {
    (d - 1 + (w - 1) * 10) * slots + o
  }

  lemma {:induction false} BlockBelow(a: nat, b: nat, k: nat)
    requires a < b
    ensures a * k + k <= b * k
  {
    assert b * k == a * k + k + (b - a - 1) * k;
    assert (b - a - 1) * k >= 0;
  }

  /** Orders of different districts, and different orders of a district, have different slots. */
  lemma {:induction false} DistrictIdx(slots: nat, w: nat, d: nat, o: nat, w': nat, d': nat, o': nat)
    requires 1 <= w && 1 <= w' && 1 <= d <= 10 && 1 <= d' <= 10 && o < slots && o' < slots
    ensures CacheIdx(slots, w, d, o) == CacheIdx(slots, w', d', o') <==> w == w' && d == d' && o == o'
  {
    var a, b := d - 1 + (w - 1) * 10, d' - 1 + (w' - 1) * 10;
    if a < b { BlockBelow(a, b, slots); }
    if b < a { BlockBelow(b, a, slots); }
  }

  lemma {:induction false} CacheIdxInRange(slots: nat, warehouses: nat, w: nat, d: nat, o: nat)
    requires 1 <= w <= warehouses && 1 <= d <= 10 && o < slots
    ensures 0 <= CacheIdx(slots, w, d, o) < warehouses * 10 * slots
  {
    BlockBelow(d - 1 + (w - 1) * 10, warehouses * 10, slots);
    assert (d - 1 + (w - 1) * 10) * slots >= 0;
  }

  const INITIAL_ITEMS: nat := 15

  /** What the initial orders contain, which is drawn at random. */
  type Initial = (nat, nat, nat) -> seq<nat>

  ghost predicate InitialOk(initial: Initial) {
    forall w: nat, d: nat, o: nat :: |initial(w, d, o)| == INITIAL_ITEMS
  }

  /** The cache arrays: for every slot how many items its order has, whose it is, and fifteen item
      ids. */
  datatype Cache = Cache(numItems: seq<nat>, customers: seq<nat>, items: seq<seq<nat>>)

  predicate Sized(cache: Cache, size: nat) {
    && |cache.numItems| == |cache.customers| == |cache.items| == size
    && forall idx: nat | idx < size :: |cache.items[idx]| == INITIAL_ITEMS
  }

  ghost predicate SlotHolds(cache: Cache, idx: int, items: seq<nat>, c: nat) {
    && 0 <= idx < |cache.numItems| && idx < |cache.customers| && idx < |cache.items|
    && cache.numItems[idx] == |items| && cache.customers[idx] == c && items <= cache.items[idx]
  }

  /** Enters an order; the item ids behind its own stay as they are. */
  function Put(cache: Cache, idx: nat, items: seq<nat>, c: nat): (now: Cache)
    requires idx < |cache.numItems| == |cache.customers| == |cache.items| && |items| <= |cache.items[idx]|
    ensures SlotHolds(now, idx, items, c)
    ensures forall x: int, own: seq<nat>, e: nat | x != idx :: SlotHolds(cache, x, own, e) ==> SlotHolds(now, x, own, e)
  {
    Cache(cache.numItems[idx := |items|], cache.customers[idx := c],
      cache.items[idx := items + cache.items[idx][|items|..]])
  }

  /** The cache has the initial orders and those of the transactions in done. */
  ghost predicate CacheHolds(cache: Cache, slots: nat, ins: seq<Input>, warehouses: nat, initial: Initial,
                             done: set<nat>)
  {
    && (forall j: nat | j in done && j < |ins| && ins[j].NewOrderInput? ::
          SlotHolds(cache, CacheIdx(slots, ins[j].w, ins[j].d, ins[j].oId), ins[j].items, ins[j].c))
    && (forall w: nat, d: nat, o: nat | 1 <= w <= warehouses && 1 <= d <= 10 && 1 <= o <= INITIAL_ORDERS ::
          SlotHolds(cache, CacheIdx(slots, w, d, o), initial(w, d, o), o))
  }

  /** The items of the newest order of a customer when the first i transactions have run. */
  function NewestItems(ins: seq<Input>, initial: Initial, w: nat, d: nat, c: nat, i: nat): seq<nat>
    requires i <= |ins|
  {
    if i == 0 then initial(w, d, c)
    else if ins[i - 1].NewOrderInput? && ins[i - 1].w == w && ins[i - 1].d == d && ins[i - 1].c == c then
      ins[i - 1].items
    else NewestItems(ins, initial, w, d, c, i - 1)
  }

  lemma {:induction false} CacheHasNewest(cache: Cache, slots: nat, ins: seq<Input>, warehouses: nat, initial: Initial,
                                          w: nat, d: nat, c: nat, i: nat, done: set<nat>)
    requires i <= |ins| && CacheHolds(cache, slots, ins, warehouses, initial, done) && HasFirst(done, i)
    requires 1 <= w <= warehouses && InBits(w, d, c)
    ensures SlotHolds(cache, CacheIdx(slots, w, d, NewestOrder(ins, w, d, c, i)),
              NewestItems(ins, initial, w, d, c, i), c)
    decreases i
  {
    hide SlotHolds, CacheIdx;
    if i > 0 { CacheHasNewest(cache, slots, ins, warehouses, initial, w, d, c, i - 1, done); }
  }

  /** The items and the customer of order o of a district when the first i transactions have run. */
  function ItemsOf(ins: seq<Input>, initial: Initial, w: nat, d: nat, o: nat, i: nat): seq<nat>
    requires i <= |ins|
  {
    if i == 0 then initial(w, d, o)
    else if ins[i - 1].NewOrderInput? && ins[i - 1].w == w && ins[i - 1].d == d && ins[i - 1].oId == o then
      ins[i - 1].items
    else ItemsOf(ins, initial, w, d, o, i - 1)
  }

  function CustomerOf(ins: seq<Input>, w: nat, d: nat, o: nat, i: nat): nat
    requires i <= |ins|
  {
    if i == 0 then o
    else if ins[i - 1].NewOrderInput? && ins[i - 1].w == w && ins[i - 1].d == d && ins[i - 1].oId == o then ins[i - 1].c
    else CustomerOf(ins, w, d, o, i - 1)
  }

  /** An order that has been placed has the items and the customer of the transaction that placed it. */
  lemma {:induction false} PlacedOrderIs(ins: seq<Input>, initial: Initial, j: nat, i: nat)
    requires Generated(ins) && j < i <= |ins| && ins[j].NewOrderInput?
    ensures ItemsOf(ins, initial, ins[j].w, ins[j].d, ins[j].oId, i) == ins[j].items
    ensures CustomerOf(ins, ins[j].w, ins[j].d, ins[j].oId, i) == ins[j].c
    decreases i
  {
    hide Generated;
    if j < i - 1 {
      PlacedOrderIs(ins, initial, j, i - 1);
      IdsGrow(ins, i - 1, j);
      IdGiven(ins, i - 1);
    }
  }

  lemma IdGiven(ins: seq<Input>, i: nat)
    requires Generated(ins) && i < |ins|
    ensures ins[i].NewOrderInput? ==> ins[i].oId == CurrOId(ins, ins[i].w, ins[i].d, i) + 1
  {
    assert IdIsRight(ins, i);
  }

  /** A customer's newest order has that order's items, and is the customer's own. */
  lemma {:induction false} NewestItemsAre(ins: seq<Input>, initial: Initial, w: nat, d: nat, c: nat, i: nat)
    requires Generated(ins) && i <= |ins| && 1 <= c <= INITIAL_ORDERS
    ensures NewestItems(ins, initial, w, d, c, i) == ItemsOf(ins, initial, w, d, NewestOrder(ins, w, d, c, i), i)
    ensures CustomerOf(ins, w, d, NewestOrder(ins, w, d, c, i), i) == c
    decreases i
  {
    hide Generated;
    if i > 0 {
      NewestItemsAre(ins, initial, w, d, c, i - 1);
      NewestIsPlaced(ins, w, d, c, i - 1);
      IdGiven(ins, i - 1);
    }
  }

  /** Every id handed out so far belongs to an order that the cache has. */
  lemma {:induction false} CacheHasOrder(cache: Cache, slots: nat, ins: seq<Input>, warehouses: nat, initial: Initial,
                                         w: nat, d: nat, o: nat, i: nat, done: set<nat>)
    requires Generated(ins) && i <= |ins| && CacheHolds(cache, slots, ins, warehouses, initial, done)
    requires HasFirst(done, i) && 1 <= w <= warehouses && 1 <= d <= 10 && 1 <= o <= CurrOId(ins, w, d, i)
    ensures SlotHolds(cache, CacheIdx(slots, w, d, o), ItemsOf(ins, initial, w, d, o, i), CustomerOf(ins, w, d, o, i))
    decreases i
  {
    hide SlotHolds, CacheIdx;
    if i > 0 {
      assert IdIsRight(ins, i - 1);
      if !(ins[i - 1].NewOrderInput? && ins[i - 1].w == w && ins[i - 1].d == d && ins[i - 1].oId == o) {
        CacheHasOrder(cache, slots, ins, warehouses, initial, w, d, o, i - 1, done);
      }
    }
  }

  // ------------------------------------------------------------------ the last twenty orders

  /** The items of the district's k orders from o downwards, newest order first. */
  function Recent(ins: seq<Input>, initial: Initial, w: nat, d: nat, o: nat, k: nat, i: nat): seq<nat>
    requires i <= |ins| && k <= o
  {
    if k == 0 then []
    else Recent(ins, initial, w, d, o, k - 1, i) + ItemsOf(ins, initial, w, d, o - (k - 1), i)
  }

  /** One of the k orders from o downwards has item x. */
  ghost predicate OrderedIn(ins: seq<Input>, initial: Initial, w: nat, d: nat, o: nat, k: nat, i: nat, x: nat)
    requires i <= |ins| && k <= o
  {
    exists q: nat :: o - k < q <= o && x in ItemsOf(ins, initial, w, d, q, i)
  }

  lemma {:induction false} RecentHas(ins: seq<Input>, initial: Initial, w: nat, d: nat, o: nat, k: nat, i: nat, x: nat)
    requires i <= |ins| && k <= o
    ensures x in Recent(ins, initial, w, d, o, k, i) <==> OrderedIn(ins, initial, w, d, o, k, i, x)
    decreases k
  {
    hide ItemsOf;
    if k > 0 {
      RecentHas(ins, initial, w, d, o, k - 1, i, x);
      var last := o - (k - 1);
      assert x in Recent(ins, initial, w, d, o, k, i) <==>
             x in Recent(ins, initial, w, d, o, k - 1, i) || x in ItemsOf(ins, initial, w, d, last, i);
      if OrderedIn(ins, initial, w, d, o, k, i, x) {
        var q: nat :| o - k < q <= o && x in ItemsOf(ins, initial, w, d, q, i);
        if q != last { assert o - (k - 1) < q <= o && x in ItemsOf(ins, initial, w, d, q, i); }
      }
      if OrderedIn(ins, initial, w, d, o, k - 1, i, x) {
        var q: nat :| o - (k - 1) < q <= o && x in ItemsOf(ins, initial, w, d, q, i);
        assert o - k < q <= o && x in ItemsOf(ins, initial, w, d, q, i);
      }
    }
  }

  lemma {:induction false} OrderFits(ins: seq<Input>, warehouses: nat, initial: Initial, w: nat, d: nat, o: nat, i: nat)
    requires i <= |ins| && InputsFit(ins, warehouses) && InitialOk(initial)
    ensures |ItemsOf(ins, initial, w, d, o, i)| <= INITIAL_ITEMS
    decreases i
  {
    if i > 0 { OrderFits(ins, warehouses, initial, w, d, o, i - 1); }
  }

  // ------------------------------------------------------------------ the index

  /** Of the batch at first all transactions but those left are inserted. */
  ghost predicate AllBut(inserted: set<nat>, done: set<nat>, first: nat, n: nat, left: set<nat>) {
    && (forall tid: nat | tid in left :: tid < n)
    && forall j: nat :: j in inserted <==> j in done || (first <= j < first + n && j - first !in left)
  }

  lemma OneMoreInserted(inserted: set<nat>, done: set<nat>, first: nat, n: nat, left: set<nat>, tid: nat)
    requires AllBut(inserted, done, first, n, left) && tid in left && forall j: nat | j in done :: j < first
    ensures tid < n && first + tid !in inserted && AllBut(inserted + {first + tid}, done, first, n, left - {tid})
  {}

  lemma NoneInserted(done: set<nat>, first: nat, n: nat)
    ensures AllBut(done, done, first, n, Range(0, n))
  {}

  lemma AllInserted(inserted: set<nat>, done: set<nat>, first: nat, n: nat)
    requires AllBut(inserted, done, first, n, {})
    ensures inserted == done + Range(first, first + n)
  {}

  class AuxIndex {
    const warehouses: nat
    const slots: nat
    var tree: set<nat>
    const orderNumItems: array<nat>
    const orderCustomers: array<nat>
    const orderItems: array<seq<nat>>

    ghost function Orders(): Cache
      reads orderNumItems, orderCustomers, orderItems
    {
      Cache(orderNumItems[..], orderCustomers[..], orderItems[..])
    }

    /** The index after the transactions in done have been inserted. */
    ghost predicate Holds(ins: seq<Input>, initial: Initial, done: set<nat>)
      reads this, orderNumItems, orderCustomers, orderItems
    {
      && InputsFit(ins, warehouses) && Sized(Orders(), warehouses * 10 * slots)
      && orderNumItems != orderCustomers && slots > INITIAL_ORDERS
      && (forall j: nat | j < |ins| && ins[j].NewOrderInput? :: ins[j].oId < slots)
      && TreeHolds(tree, ins, warehouses, done)
      && CacheHolds(Orders(), slots, ins, warehouses, initial, done)
    }

    /** Loads the initial orders: order o of every district belongs to customer o. */
    constructor (warehouses: nat, slots: nat, initial: Initial)
      requires warehouses <= 64 && slots > INITIAL_ORDERS && InitialOk(initial)
      ensures Holds([], initial, {}) && this.warehouses == warehouses && this.slots == slots
      ensures fresh(orderNumItems) && fresh(orderCustomers) && fresh(orderItems)
    {
      this.warehouses := warehouses;
      this.slots := slots;
      tree := {};
      orderNumItems := new nat[warehouses * 10 * slots];
      orderCustomers := new nat[warehouses * 10 * slots];
      orderItems := new seq<nat>[warehouses * 10 * slots](_ => seq(INITIAL_ITEMS, _ => 0));
      new;
      for w := 1 to warehouses + 1
        invariant fresh(orderNumItems) && fresh(orderCustomers) && fresh(orderItems)
        invariant Sized(Orders(), warehouses * 10 * slots) && orderNumItems != orderCustomers
        invariant Loaded(tree, Orders(), slots, warehouses, initial, w, 1, 1)
      {
        for d := 1 to 11
          invariant fresh(orderNumItems) && fresh(orderCustomers) && fresh(orderItems)
          invariant Sized(Orders(), warehouses * 10 * slots) && orderNumItems != orderCustomers
          invariant Loaded(tree, Orders(), slots, warehouses, initial, w, d, 1)
        {
          for o := 1 to INITIAL_ORDERS + 1
            invariant fresh(orderNumItems) && fresh(orderCustomers) && fresh(orderItems)
            invariant Sized(Orders(), warehouses * 10 * slots) && orderNumItems != orderCustomers
            invariant Loaded(tree, Orders(), slots, warehouses, initial, w, d, o)
          {
            ghost var was := tree;
            CacheIdxInRange(slots, warehouses, w, d, o);
            OneMoreLoaded(tree, Orders(), slots, warehouses, initial, w, d, o);
            tree := tree + {OrderKey(w, d, o, o)};
            Enter(CacheIdx(slots, w, d, o), initial(w, d, o), o);
          }
          NextDistrict(tree, Orders(), slots, warehouses, initial, w, d);
        }
        NextWarehouse(tree, Orders(), slots, warehouses, initial, w);
      }
      AllLoaded(tree, Orders(), slots, warehouses, initial);
    }

    /** Enters an order into its slot; lane i of the tile writes item i. */
    method Enter(cacheIdx: nat, items: seq<nat>, c: nat)
      requires Sized(Orders(), orderItems.Length) && cacheIdx < orderItems.Length && |items| <= INITIAL_ITEMS
      requires orderNumItems != orderCustomers
      modifies orderNumItems, orderCustomers, orderItems
      ensures Orders() == Put(old(Orders()), cacheIdx, items, c) && Sized(Orders(), orderItems.Length)
    {
      orderNumItems[cacheIdx] := |items|;
      orderCustomers[cacheIdx] := c;
      orderItems[cacheIdx] := items + orderItems[cacheIdx][|items|..];
    }

    /** Inserts the order of one transaction, if it places one. */
    method InsertTxnUpdate(ghost ins: seq<Input>, ghost initial: Initial, ghost done: set<nat>, ghost j: nat,
                           txn: Input)
      requires j < |ins| && j !in done && Generated(ins) && Holds(ins, initial, done) && txn == ins[j]
      modifies this`tree, orderNumItems, orderCustomers, orderItems
      ensures Holds(ins, initial, done + {j})
    {
      if txn.NewOrderInput? {
        var w, d, c, o := txn.w, txn.d, txn.c, txn.oId;
        CacheIdxInRange(slots, warehouses, w, d, o);
        var cacheIdx := CacheIdx(slots, w, d, o);
        OneMoreOrder(tree, ins, warehouses, done, j);
        OneMoreCached(Orders(), slots, ins, warehouses, initial, done, j);
        hide TreeHolds, CacheHolds, Generated, OrderKey;
        Enter(cacheIdx, txn.items, c);
        tree := tree + {OrderKey(w, d, c, o)};
      } else {
        NoMoreOrder(tree, ins, warehouses, done, j);
      }
    }

    /** All orders of the batch that begins at transaction first.  The threads insert them in
        any order. */
    method InsertTxnUpdates(ghost ins: seq<Input>, ghost initial: Initial, ghost done: set<nat>, ghost first: nat,
                            batch: seq<Input>)
      requires first + |batch| <= |ins| && batch == ins[first..first + |batch|] && Generated(ins)
      requires Holds(ins, initial, done) && forall j: nat | j in done :: j < first
      modifies this`tree, orderNumItems, orderCustomers, orderItems
      ensures Holds(ins, initial, done + Range(first, first + |batch|))
    {
      hide TreeHolds, CacheHolds, InputsFit, Generated, Sized, Holds, AllBut, Range;
      var left := Range(0, |batch|);
      ghost var inserted: set<nat> := done;
      NoneInserted(done, first, |batch|);
      while left != {}
        invariant AllBut(inserted, done, first, |batch|, left)
        invariant Holds(ins, initial, inserted)
        decreases |left|
      {
        var tid :| tid in left;
        OneMoreInserted(inserted, done, first, |batch|, left, tid);
        InsertTxnUpdate(ins, initial, inserted, first + tid, batch[tid]);
        inserted := inserted + {first + tid};
        left := left - {tid};
      }
      AllInserted(inserted, done, first, |batch|);
    }

    /** The smallest key in lo..hi, which exists. */
    method FindNext(lo: nat, hi: nat) returns (key: nat)
      requires exists k :: k in tree && lo <= k <= hi
      ensures IsNext(tree, lo, hi, key)
    {
      key :| key in tree && lo <= key <= hi;
      var rest := tree;
      while rest != {}
        invariant rest <= tree && key in tree && lo <= key <= hi
        invariant forall k | k in tree && k !in rest && lo <= k <= hi :: key <= k
        decreases |rest|
      {
        var k :| k in rest;
        if lo <= k < key { key := k; }
        rest := rest - {k};
      }
    }

    /** Answers the ORDER_STATUS transaction i when the orders placed before it are in the index. */
    method OrderStatus(ghost ins: seq<Input>, ghost initial: Initial, ghost i: nat, ghost done: set<nat>, txn: Input)
      returns (oId: nat, numItems: nat)
      requires i < |ins| && Generated(ins) && Holds(ins, initial, done) && HasFirst(done, i)
      requires txn == ins[i] && txn.OrderStatusInput?
      ensures oId == NewestOrder(ins, txn.w, txn.d, txn.c, i)
      ensures numItems == |NewestItems(ins, initial, txn.w, txn.d, txn.c, i)|
    {
      var lowerBound, upperBound := OrderKey(txn.w, txn.d, txn.c, txn.oId), Pack(MAX_O_ID, txn.c, txn.d, txn.w);
      ghost var newest := NewestOrder(ins, txn.w, txn.d, txn.c, i);
      OrderStatusIsSerial(tree, ins, warehouses, i, done, 0);
      OrderStatusIsSerial(tree, ins, warehouses, i, done, OrderKey(txn.w, txn.d, txn.c, newest));
      CacheHasNewest(Orders(), slots, ins, warehouses, initial, txn.w, txn.d, txn.c, i, done);
      hide OrderKey, Pack, TreeHolds, CacheHolds;
      var key := FindNext(lowerBound, upperBound);
      OrderStatusIsSerial(tree, ins, warehouses, i, done, key);
      UnpackOrder(txn.w, txn.d, txn.c, newest);
      oId := MAX_O_ID - OrderBits(key);
      numItems := orderNumItems[CacheIdx(slots, txn.w, txn.d, oId)];
    }

    /** Fills in what the DELIVERY transaction i delivers in each of the ten districts. */
    method Delivery(ghost ins: seq<Input>, ghost initial: Initial, ghost i: nat, ghost done: set<nat>, txn: Input)
      returns (numItems: seq<nat>, customers: seq<nat>)
      requires i < |ins| && Generated(ins) && Holds(ins, initial, done) && HasFirst(done, i)
      requires txn == ins[i] && txn.DeliveryInput?
      ensures |numItems| == |customers| == 10
      ensures forall e: nat | e < 10 ::
                && numItems[e] == |ItemsOf(ins, initial, txn.w, e + 1, txn.oId, i)|
                && customers[e] == CustomerOf(ins, txn.w, e + 1, txn.oId, i)
    {
      numItems, customers := [], [];
      assert IdIsRight(ins, i);
      for rank := 0 to 10
        invariant |numItems| == |customers| == rank
        invariant forall e: nat | e < rank ::
                    && numItems[e] == |ItemsOf(ins, initial, txn.w, e + 1, txn.oId, i)|
                    && customers[e] == CustomerOf(ins, txn.w, e + 1, txn.oId, i)
      {
        assert txn.oId < CurrOId(ins, txn.w, rank + 1, i);
        CacheHasOrder(Orders(), slots, ins, warehouses, initial, txn.w, rank + 1, txn.oId, i, done);
        var cacheIdx := CacheIdx(slots, txn.w, rank + 1, txn.oId);
        numItems := numItems + [orderNumItems[cacheIdx]];
        customers := customers + [orderCustomers[cacheIdx]];
      }
    }

    /** Copies the items of one order; lane rank of the tile copies item rank. */
    method CopyItems(cacheIdx: nat, numItems: nat, stockIds: array<nat>, itemsCnt: nat)
      requires cacheIdx < orderItems.Length && numItems <= |orderItems[cacheIdx]|
      requires itemsCnt + numItems <= stockIds.Length
      modifies stockIds
      ensures stockIds[..itemsCnt + numItems] == old(stockIds[..itemsCnt]) + orderItems[cacheIdx][..numItems]
    {
      for rank := 0 to numItems
        invariant stockIds[..itemsCnt + rank] == old(stockIds[..itemsCnt]) + orderItems[cacheIdx][..rank]
      {
        stockIds[itemsCnt + rank] := orderItems[cacheIdx][rank];
      }
    }

    /** Adds the items of order oId to what has been gathered. */
    method GatherOrder(ghost ins: seq<Input>, ghost initial: Initial, ghost i: nat, ghost done: set<nat>, w: nat,
                       d: nat,
                       oId: nat, stockIds: array<nat>, itemsCnt: nat) returns (newCnt: nat)
      requires i <= |ins| && Generated(ins) && Holds(ins, initial, done) && HasFirst(done, i) && InitialOk(initial)
      requires 1 <= w <= warehouses && 1 <= d <= 10 && 1 <= oId <= CurrOId(ins, w, d, i)
      requires itemsCnt + INITIAL_ITEMS <= stockIds.Length
      requires stockIds != orderNumItems && stockIds != orderCustomers
      modifies stockIds
      ensures Holds(ins, initial, done) && itemsCnt <= newCnt <= itemsCnt + INITIAL_ITEMS
      ensures stockIds[..newCnt] == old(stockIds[..itemsCnt]) + ItemsOf(ins, initial, w, d, oId, i)
    {
      CacheHasOrder(Orders(), slots, ins, warehouses, initial, w, d, oId, i, done);
      OrderFits(ins, warehouses, initial, w, d, oId, i);
      hide TreeHolds, CacheHolds, InputsFit, Generated, ItemsOf, InitialOk, CurrOId;
      var cacheIdx := CacheIdx(slots, w, d, oId);
      var numItems := orderNumItems[cacheIdx];
      CopyItems(cacheIdx, numItems, stockIds, itemsCnt);
      newCnt := itemsCnt + numItems;
    }

    /** Gathers the items of the district's last twenty orders as of transaction i. */
    method GatherItems(ghost ins: seq<Input>, ghost initial: Initial, ghost i: nat, ghost done: set<nat>, txn: Input,
                       stockIds: array<nat>) returns (itemsCnt: nat)
      requires i < |ins| && Generated(ins) && Holds(ins, initial, done) && HasFirst(done, i) && InitialOk(initial)
      requires txn == ins[i] && txn.StockLevelInput? && 20 * INITIAL_ITEMS <= stockIds.Length
      requires stockIds != orderNumItems && stockIds != orderCustomers
      modifies stockIds
      ensures txn.oId >= INITIAL_ORDERS && itemsCnt <= 20 * INITIAL_ITEMS
      ensures stockIds[..itemsCnt] == Recent(ins, initial, txn.w, txn.d, txn.oId, 20, i)
    {
      assert IdIsRight(ins, i);
      itemsCnt := 0;
      var oId := txn.oId;
      while oId > txn.oId - 20
        invariant txn.oId - 20 <= oId <= txn.oId && Holds(ins, initial, done)
        invariant itemsCnt <= (txn.oId - oId) * INITIAL_ITEMS
        invariant stockIds[..itemsCnt] == Recent(ins, initial, txn.w, txn.d, txn.oId, txn.oId - oId, i)
      {
        hide TreeHolds, CacheHolds, Generated, ItemsOf, InitialOk, Sized, HasFirst;
        itemsCnt := GatherOrder(ins, initial, i, done, txn.w, txn.d, oId, stockIds, itemsCnt);
        oId := oId - 1;
      }
    }
  }

  lemma {:induction false} OneMoreKey(ins: seq<Input>, warehouses: nat, done: set<nat>, n: nat, key: nat)
    requires n < |ins| && InputsFit(ins, warehouses) && ins[n].NewOrderInput?
    ensures ins[n].oId <= MAX_O_ID
    ensures IsKey(ins, warehouses, done + {n}, key) <==>
            IsKey(ins, warehouses, done, key) || key == OrderKey(ins[n].w, ins[n].d, ins[n].c, ins[n].oId)
  {
    var x := ins[n];
    assert PlacedBy(ins, x.w, x.d, x.c, x.oId, n);
    assert Exists(ins, warehouses, x.w, x.d, x.c, x.oId, done + {n});
    hide OrderKey, InputsFit;
    if IsKey(ins, warehouses, done, key) {
      var w: nat, d: nat, c: nat, o: nat :| Exists(ins, warehouses, w, d, c, o, done) && key == OrderKey(w, d, c, o);
      assert Exists(ins, warehouses, w, d, c, o, done + {n});
    }
    if IsKey(ins, warehouses, done + {n}, key) {
      var w: nat, d: nat, c: nat, o: nat :| Exists(ins, warehouses, w, d, c, o, done + {n})
        && key == OrderKey(w, d, c, o);
      if !PlacedBy(ins, w, d, c, o, n) { assert Exists(ins, warehouses, w, d, c, o, done); }
    }
  }

  lemma {:induction false} OneMoreOrder(tree: set<nat>, ins: seq<Input>, warehouses: nat, done: set<nat>, n: nat)
    requires n < |ins| && InputsFit(ins, warehouses) && TreeHolds(tree, ins, warehouses, done) && ins[n].NewOrderInput?
    ensures TreeHolds(tree + {OrderKey(ins[n].w, ins[n].d, ins[n].c, ins[n].oId)}, ins, warehouses, done + {n})
  {
    hide IsKey, OrderKey;
    forall key: nat
      ensures IsKey(ins, warehouses, done + {n}, key) <==>
              IsKey(ins, warehouses, done, key) || key == OrderKey(ins[n].w, ins[n].d, ins[n].c, ins[n].oId)
    {
      OneMoreKey(ins, warehouses, done, n, key);
    }
  }

  lemma {:induction false} NoMoreOrder(tree: set<nat>, ins: seq<Input>, warehouses: nat, done: set<nat>, n: nat)
    requires n < |ins| && TreeHolds(tree, ins, warehouses, done) && !ins[n].NewOrderInput?
    ensures TreeHolds(tree, ins, warehouses, done + {n})
  {
    forall key: nat ensures IsKey(ins, warehouses, done + {n}, key) <==> IsKey(ins, warehouses, done, key) {
      SameKeys(ins, ins, warehouses, done, done + {n}, key);
      SameKeys(ins, ins, warehouses, done + {n}, done, key);
    }
    hide IsKey;
  }

  /** A key that is there for one reason is there for the same reason later. */
  lemma {:induction false} SameKeys(ins: seq<Input>, ins': seq<Input>, warehouses: nat, done: set<nat>, done': set<nat>,
                                    key: nat)
    requires forall w: nat, d: nat, c: nat, o: nat ::
               PlacedIn(ins, w, d, c, o, done) ==> PlacedIn(ins', w, d, c, o, done')
    ensures IsKey(ins, warehouses, done, key) ==> IsKey(ins', warehouses, done', key)
  {
    if IsKey(ins, warehouses, done, key) {
      var w: nat, d: nat, c: nat, o: nat :| Exists(ins, warehouses, w, d, c, o, done) && key == OrderKey(w, d, c, o);
      assert Exists(ins', warehouses, w, d, c, o, done');
    }
  }

  /** A new order's slot is nobody else's, so it does not matter who is entered first. */
  lemma {:induction false} OneMoreCached(cache: Cache, slots: nat, ins: seq<Input>, warehouses: nat, initial: Initial,
                                         done: set<nat>, n: nat)
    requires n < |ins| && n !in done && Generated(ins) && InputsFit(ins, warehouses) && ins[n].NewOrderInput?
             && slots > INITIAL_ORDERS
    requires forall j: nat | j < |ins| && ins[j].NewOrderInput? :: ins[j].oId < slots
    requires CacheHolds(cache, slots, ins, warehouses, initial, done)
    requires Sized(cache, |cache.items|) && 0 <= CacheIdx(slots, ins[n].w, ins[n].d, ins[n].oId) < |cache.items|
    ensures CacheHolds(Put(cache, CacheIdx(slots, ins[n].w, ins[n].d, ins[n].oId), ins[n].items, ins[n].c), slots, ins,
              warehouses, initial, done + {n})
  {
    var x := ins[n];
    assert IdIsRight(ins, n);
    forall j: nat | j < |ins| && j != n && ins[j].NewOrderInput?
      ensures CacheIdx(slots, ins[j].w, ins[j].d, ins[j].oId) != CacheIdx(slots, x.w, x.d, x.oId)
    {
      DistrictIdx(slots, ins[j].w, ins[j].d, ins[j].oId, x.w, x.d, x.oId);
      if ins[j].w == x.w && ins[j].d == x.d {
        if j < n { IdsDiffer(ins, j, n); } else { IdsDiffer(ins, n, j); }
      }
    }
    forall w: nat, d: nat, o: nat | 1 <= w <= warehouses && 1 <= d <= 10 && 1 <= o <= INITIAL_ORDERS
      ensures CacheIdx(slots, w, d, o) != CacheIdx(slots, x.w, x.d, x.oId)
    {
      DistrictIdx(slots, w, d, o, x.w, x.d, x.oId);
    }
    hide CacheIdx, Generated, InputsFit, SlotHolds, Put;
  }

  // ------------------------------------------------------------------ the initial load

  /** Order o' of district (w', d') is loaded before order o of (w, d). */
  predicate LoadedBefore(warehouses: nat, w': nat, d': nat, o': nat, w: nat, d: nat, o: nat) {
    && 1 <= w' <= warehouses && 1 <= d' <= 10 && 1 <= o' <= INITIAL_ORDERS
    && (w' < w || (w' == w && (d' < d || (d' == d && o' < o))))
  }

  ghost predicate LoadedKey(warehouses: nat, key: nat, w: nat, d: nat, o: nat) {
    exists w': nat, d': nat, o': nat :: LoadedBefore(warehouses, w', d', o', w, d, o) && key == OrderKey(w', d', o', o')
  }

  /** Everything before order o of district (w, d) has been loaded. */
  ghost predicate Loaded(tree: set<nat>, cache: Cache, slots: nat, warehouses: nat, initial: Initial, w: nat, d: nat,
                         o: nat) {
    && (forall key: nat :: key in tree <==> LoadedKey(warehouses, key, w, d, o))
    && (forall w': nat, d': nat, o': nat | LoadedBefore(warehouses, w', d', o', w, d, o) ::
          SlotHolds(cache, CacheIdx(slots, w', d', o'), initial(w', d', o'), o'))
  }

  lemma {:induction false} OneMoreLoaded(tree: set<nat>, cache: Cache, slots: nat, warehouses: nat, initial: Initial,
                                         w: nat, d: nat, o: nat)
    requires Loaded(tree, cache, slots, warehouses, initial, w, d, o) && InitialOk(initial)
    requires 1 <= w <= warehouses && 1 <= d <= 10 && 1 <= o <= INITIAL_ORDERS < slots
    requires Sized(cache, |cache.items|) && 0 <= CacheIdx(slots, w, d, o) < |cache.items|
    ensures Loaded(tree + {OrderKey(w, d, o, o)}, Put(cache, CacheIdx(slots, w, d, o), initial(w, d, o), o), slots,
              warehouses, initial, w, d, o + 1)
  {
    forall w': nat, d': nat, o': nat
      ensures LoadedBefore(warehouses, w', d', o', w, d, o + 1) <==>
              LoadedBefore(warehouses, w', d', o', w, d, o) || (w' == w && d' == d && o' == o)
    {}
    forall w': nat, d': nat, o': nat | LoadedBefore(warehouses, w', d', o', w, d, o)
      ensures CacheIdx(slots, w', d', o') != CacheIdx(slots, w, d, o)
    {
      DistrictIdx(slots, w', d', o', w, d, o);
    }
    MoreKeys(tree, warehouses, w, d, o);
    hide CacheIdx, LoadedKey, OrderKey, SlotHolds, Put, LoadedBefore;
  }

  lemma {:induction false} MoreKeys(tree: set<nat>, warehouses: nat, w: nat, d: nat, o: nat)
    requires forall key: nat :: key in tree <==> LoadedKey(warehouses, key, w, d, o)
    requires 1 <= w <= warehouses && 1 <= d <= 10 && 1 <= o <= INITIAL_ORDERS
    ensures forall key: nat :: key in tree + {OrderKey(w, d, o, o)} <==> LoadedKey(warehouses, key, w, d, o + 1)
  {
    forall key: nat
      ensures LoadedKey(warehouses, key, w, d, o + 1) <==>
              LoadedKey(warehouses, key, w, d, o) || key == OrderKey(w, d, o, o)
    {
      if LoadedKey(warehouses, key, w, d, o) {
        var w': nat, d': nat, o': nat :| LoadedBefore(warehouses, w', d', o', w, d, o)
          && key == OrderKey(w', d', o', o');
        assert LoadedBefore(warehouses, w', d', o', w, d, o + 1);
      }
      if key == OrderKey(w, d, o, o) { assert LoadedBefore(warehouses, w, d, o, w, d, o + 1); }
      if LoadedKey(warehouses, key, w, d, o + 1) {
        var w': nat, d': nat, o': nat :| LoadedBefore(warehouses, w', d', o', w, d, o + 1)
          && key == OrderKey(w', d', o', o');
        if !(w' == w && d' == d && o' == o) { assert LoadedBefore(warehouses, w', d', o', w, d, o); }
      }
    }
    hide LoadedKey, OrderKey;
  }

  lemma {:induction false} SameLoaded(tree: set<nat>, cache: Cache, slots: nat, warehouses: nat, initial: Initial,
                                      w: nat, d: nat, o: nat, v: nat, e: nat, q: nat)
    requires Loaded(tree, cache, slots, warehouses, initial, w, d, o)
    requires forall w': nat, d': nat, o': nat ::
               LoadedBefore(warehouses, w', d', o', w, d, o) <==> LoadedBefore(warehouses, w', d', o', v, e, q)
    ensures Loaded(tree, cache, slots, warehouses, initial, v, e, q)
  {
    hide OrderKey, CacheIdx, SlotHolds;
    forall key: nat ensures LoadedKey(warehouses, key, w, d, o) <==> LoadedKey(warehouses, key, v, e, q) {
      if LoadedKey(warehouses, key, w, d, o) {
        var w': nat, d': nat, o': nat :| LoadedBefore(warehouses, w', d', o', w, d, o)
          && key == OrderKey(w', d', o', o');
        assert LoadedBefore(warehouses, w', d', o', v, e, q);
      }
      if LoadedKey(warehouses, key, v, e, q) {
        var w': nat, d': nat, o': nat :| LoadedBefore(warehouses, w', d', o', v, e, q)
          && key == OrderKey(w', d', o', o');
        assert LoadedBefore(warehouses, w', d', o', w, d, o);
      }
    }
  }

  lemma {:induction false} NextDistrict(tree: set<nat>, cache: Cache, slots: nat, warehouses: nat, initial: Initial,
                                        w: nat, d: nat)
    requires Loaded(tree, cache, slots, warehouses, initial, w, d, INITIAL_ORDERS + 1)
    ensures Loaded(tree, cache, slots, warehouses, initial, w, d + 1, 1)
  {
    SameLoaded(tree, cache, slots, warehouses, initial, w, d, INITIAL_ORDERS + 1, w, d + 1, 1);
  }

  lemma {:induction false} NextWarehouse(tree: set<nat>, cache: Cache, slots: nat, warehouses: nat, initial: Initial,
                                         w: nat)
    requires Loaded(tree, cache, slots, warehouses, initial, w, 11, 1)
    ensures Loaded(tree, cache, slots, warehouses, initial, w + 1, 1, 1)
  {
    SameLoaded(tree, cache, slots, warehouses, initial, w, 11, 1, w + 1, 1, 1);
  }

  lemma {:induction false} AllLoaded(tree: set<nat>, cache: Cache, slots: nat, warehouses: nat, initial: Initial)
    requires Loaded(tree, cache, slots, warehouses, initial, warehouses + 1, 1, 1) && warehouses <= 64
    ensures TreeHolds(tree, [], warehouses, {}) && CacheHolds(cache, slots, [], warehouses, initial, {})
  {
    forall key: nat ensures IsKey([], warehouses, {}, key) <==> LoadedKey(warehouses, key, warehouses + 1, 1, 1) {
      if IsKey([], warehouses, {}, key) {
        var w: nat, d: nat, c: nat, o: nat :| Exists([], warehouses, w, d, c, o, {}) && key == OrderKey(w, d, c, o);
        assert LoadedBefore(warehouses, w, d, o, warehouses + 1, 1, 1);
      }
      if LoadedKey(warehouses, key, warehouses + 1, 1, 1) {
        var w: nat, d: nat, o: nat :| LoadedBefore(warehouses, w, d, o, warehouses + 1, 1, 1)
          && key == OrderKey(w, d, o, o);
        assert Exists([], warehouses, w, d, o, o, {});
      }
    }
    hide IsKey, LoadedKey, OrderKey, CacheIdx, SlotHolds;
  }

  /** What is loaded does not depend on what will come. */
  lemma {:induction false} LoadServesEveryRun(tree: set<nat>, cache: Cache, slots: nat, warehouses: nat,
                                              initial: Initial, ins: seq<Input>)
    requires TreeHolds(tree, [], warehouses, {}) && CacheHolds(cache, slots, [], warehouses, initial, {})
    ensures TreeHolds(tree, ins, warehouses, {}) && CacheHolds(cache, slots, ins, warehouses, initial, {})
  {
    forall key: nat ensures IsKey([], warehouses, {}, key) <==> IsKey(ins, warehouses, {}, key) {
      SameKeys([], ins, warehouses, {}, {}, key);
      SameKeys(ins, [], warehouses, {}, {}, key);
    }
    hide IsKey, CacheIdx, SlotHolds;
  }
}
