/** STOCK_LEVEL: the items of the district's last twenty orders are gathered and sorted, and then
    replaced in place by the stock rows of the distinct items. */
module StockLevel {
  import opened BatchIndex
  import opened TpccGenerator

  const STOCK_IDS: nat := 304

  /** s without the entries that equal their predecessor. */
  function Distinct(s: seq<nat>): (d: seq<nat>)
    ensures |d| <= |s|
  {
    if s == [] then []
    else if |s| > 1 && s[|s| - 1] == s[|s| - 2] then Distinct(s[..|s| - 1])
    else Distinct(s[..|s| - 1]) + [s[|s| - 1]]
  }

  function Rows(items: seq<nat>, stockRow: nat -> nat): (rows: seq<nat>)
    ensures |rows| == |items| && forall i: nat | i < |rows| :: rows[i] == stockRow(items[i])
  {
    seq(|items|, i requires 0 <= i < |items| => stockRow(items[i]))
  }

  ghost predicate Nondecreasing(s: seq<nat>) {
    forall i, j | 0 <= i < j < |s| :: s[i] <= s[j]
  }

  /** x in its place among the sorted s. */
  function Insert(s: seq<nat>, x: nat): seq<nat> {
    if s == [] || s[|s| - 1] <= x then s + [x] else Insert(s[..|s| - 1], x) + [s[|s| - 1]]
  }

  /** The ids in nondecreasing order, which is what the warp's merge sort leaves. */
  function Sorted(s: seq<nat>): seq<nat> {
    if s == [] then [] else Insert(Sorted(s[..|s| - 1]), s[|s| - 1])
  }

  lemma {:induction false} InsertAdds(s: seq<nat>, x: nat)
    ensures multiset(Insert(s, x)) == multiset(s) + multiset{x}
  {
    if s != [] && s[|s| - 1] > x {
      InsertAdds(s[..|s| - 1], x);
      assert s == s[..|s| - 1] + [s[|s| - 1]];
    }
  }

  lemma {:induction false} InsertSorts(s: seq<nat>, x: nat)
    requires Nondecreasing(s)
    ensures Nondecreasing(Insert(s, x))
    ensures forall y :: y in Insert(s, x) ==> y in s || y == x
  {
    if s != [] && s[|s| - 1] > x {
      var front, last := s[..|s| - 1], s[|s| - 1];
      InsertSorts(front, x);
      forall y | y in Insert(front, x) ensures y <= last {}
      hide Insert;
      AppendLargest(Insert(front, x), last);
    } else {
      AppendLargest(s, x);
    }
  }

  lemma AppendLargest(s: seq<nat>, x: nat)
    requires Nondecreasing(s) && forall y | y in s :: y <= x
    ensures Nondecreasing(s + [x])
  {
    forall i: nat | i < |s| ensures s[i] <= x { assert s[i] in s; }
  }

  lemma {:induction false} SortedIsSorted(s: seq<nat>)
    ensures Nondecreasing(Sorted(s)) && multiset(Sorted(s)) == multiset(s)
    ensures |Sorted(s)| == |s| && forall x :: x in Sorted(s) <==> x in s
  {
    if s != [] {
      SortedIsSorted(s[..|s| - 1]);
      InsertSorts(Sorted(s[..|s| - 1]), s[|s| - 1]);
      InsertAdds(Sorted(s[..|s| - 1]), s[|s| - 1]);
      assert s == s[..|s| - 1] + [s[|s| - 1]];
    }
    assert |multiset(s)| == |s|;
    assert |multiset(Sorted(s))| == |Sorted(s)|;
    forall x ensures x in Sorted(s) <==> x in s {
      assert x in multiset(s) <==> x in s;
    }
  }

  method Sort(ids: array<nat>, n: nat)
    requires n <= ids.Length
    modifies ids
    ensures ids[..n] == Sorted(old(ids[..n]))
  {
    var sorted := Sorted(ids[..n]);
    SortedIsSorted(ids[..n]);
    hide Sorted, Nondecreasing;
    forall i | 0 <= i < n {
      ids[i] := sorted[i];
    }
  }

  /** What the last item of a list adds. */
  lemma {:induction false} DistinctNext(s: seq<nat>, x: nat)
    ensures Distinct(s + [x]) == if s != [] && x == s[|s| - 1] then Distinct(s) else Distinct(s) + [x]
  {
    assert (s + [x])[..|s + [x]| - 1] == s;
  }

  /** d has the items of s, each once, in increasing order. */
  ghost predicate Exact(d: seq<nat>, s: seq<nat>) {
    && (forall i, j | 0 <= i < j < |d| :: d[i] < d[j])
    && (forall x: nat :: x in d <==> x in s)
    && (s != [] ==> d != [] && d[|d| - 1] == s[|s| - 1])
  }

  lemma {:induction false} ExactNext(d: seq<nat>, s: seq<nat>, x: nat)
    requires Exact(d, s) && (s != [] ==> s[|s| - 1] <= x)
    ensures Exact(if s != [] && x == s[|s| - 1] then d else d + [x], s + [x])
  {
    var more := if s != [] && x == s[|s| - 1] then d else d + [x];
    forall y: nat ensures y in more <==> y in s + [x] {
      assert y in s + [x] <==> y in s || y == x;
      assert y in d + [x] <==> y in d || y == x;
      assert y in d <==> y in s;
    }
    forall i, j | 0 <= i < j < |more| ensures more[i] < more[j] {
      if j == |d| {
        assert d[i] in s && d[i] <= d[|d| - 1];
      } else {
        assert d[i] < d[j];
      }
    }
  }

  /** Of a nondecreasing list it keeps exactly the distinct items, each once, in order. */
  lemma {:induction false} DistinctIsExact(s: seq<nat>)
    requires Nondecreasing(s)
    ensures Exact(Distinct(s), s)
  {
    if s != [] {
      hide Distinct, Exact;
      var n := |s| - 1;
      DistinctIsExact(s[..n]);
      DistinctNext(s[..n], s[n]);
      ExactNext(Distinct(s[..n]), s[..n], s[n]);
      assert s == s[..n] + [s[n]];
    }
  }

  /** The loop works for every list: it leaves the rows of the entries that differ from their
      predecessor in front, and every entry it has yet to read is as it was. */
  method IndexStockLevel(stockIds: array<nat>, numItems: nat, stockRow: nat -> nat) returns (numUniqueItems: nat)
    requires numItems <= stockIds.Length
    modifies stockIds
    ensures numUniqueItems == |Distinct(old(stockIds[..numItems]))| <= numItems
    ensures stockIds[..numUniqueItems] == Rows(Distinct(old(stockIds[..numItems])), stockRow)
    ensures stockIds[numItems..] == old(stockIds[numItems..])
  {
    ghost var items := stockIds[..numItems];
    numUniqueItems := 0;
    var prevItem := 0;
    for i := 0 to numItems
      invariant numUniqueItems == |Distinct(items[..i])| <= i
      invariant stockIds[..numUniqueItems] == Rows(Distinct(items[..i]), stockRow)
      invariant stockIds[i..] == old(stockIds[i..])
      invariant i > 0 ==> prevItem == items[i - 1]
    {
      var currItem := stockIds[i];
      assert stockIds[i..][0] == items[i];
      assert items[..i + 1][..i] == items[..i];
      if i > 0 && currItem == prevItem {
        assert stockIds[i + 1..] == stockIds[i..][1..];
        continue;
      }
      prevItem := currItem;
      ghost var was := stockIds[i..];
      stockIds[numUniqueItems] := stockRow(currItem);
      numUniqueItems := numUniqueItems + 1;
      assert stockIds[i + 1..] == was[1..];
    }
    assert items[..numItems] == items;
  }

  // ------------------------------------------------------------------ the whole transaction

  /** The items that a STOCK_LEVEL looks at, each once. */
  function ItemsSeen(ins: seq<Input>, initial: Initial, w: nat, d: nat, o: nat, i: nat): seq<nat>
    requires i <= |ins| && o >= 20
  {
    Distinct(Sorted(Recent(ins, initial, w, d, o, 20, i)))
  }

  /** They are exactly the items of the last twenty orders, in increasing order. */
  lemma {:induction false} SeenIsExact(ins: seq<Input>, initial: Initial, w: nat, d: nat, o: nat, i: nat)
    requires i <= |ins| && o >= 20
    ensures forall k, l | 0 <= k < l < |ItemsSeen(ins, initial, w, d, o, i)| ::
              ItemsSeen(ins, initial, w, d, o, i)[k] < ItemsSeen(ins, initial, w, d, o, i)[l]
    ensures forall x: nat ::
              x in ItemsSeen(ins, initial, w, d, o, i) <==> OrderedIn(ins, initial, w, d, o, 20, i, x)
  {
    var recent := Recent(ins, initial, w, d, o, 20, i);
    SortedIsSorted(recent);
    DistinctIsExact(Sorted(recent));
    hide Recent, OrderedIn, Sorted, Distinct;
    forall x: nat ensures x in recent <==> OrderedIn(ins, initial, w, d, o, 20, i, x) {
      RecentHas(ins, initial, w, d, o, 20, i, x);
    }
  }

  /** A STOCK_LEVEL gets the stock rows of the items that it sees when the transactions run one
      after the other, whatever later orders the cache has already. */
  method IndexTxn(aux: AuxIndex, ghost ins: seq<Input>, ghost initial: Initial, ghost i: nat, ghost done: set<nat>,
                  txn: Input, stockIds: array<nat>, stockRow: nat -> nat) returns (numItems: nat)
    requires i < |ins| && Generated(ins) && aux.Holds(ins, initial, done) && HasFirst(done, i) && InitialOk(initial)
    requires txn == ins[i] && txn.StockLevelInput? && stockIds.Length == STOCK_IDS
    requires stockIds != aux.orderNumItems && stockIds != aux.orderCustomers
    modifies stockIds
    ensures txn.oId >= INITIAL_ORDERS && numItems <= 20 * INITIAL_ITEMS
    ensures stockIds[..numItems] == Rows(ItemsSeen(ins, initial, txn.w, txn.d, txn.oId, i), stockRow)
  {
    var itemsCnt := aux.GatherItems(ins, initial, i, done, txn, stockIds);
    Sort(stockIds, itemsCnt);
    numItems := IndexStockLevel(stockIds, itemsCnt, stockRow);
  }
}
