/** The lock-free stock update: read the quantity, compute the new one, and store it if the
    quantity is still the assumed one; otherwise try again with the quantity found. */
module StockCas {
  import opened Machine
  import opened Stock
  import Progress

  datatype Update = Update(row: nat, order: uint32)

  datatype CasPhase = Reading | Trying(assumed: uint32)

  datatype Seller = Seller(pc: nat, phase: CasPhase)

  /** The quantities of all stock rows, and how far each transaction is with its items. */
  datatype Shelf = Shelf(quantity: seq<uint32>, sellers: seq<Seller>)

  ghost predicate UpdatesOk(updates: seq<seq<Update>>, rows: nat) {
    forall u: nat, i: nat | u < |updates| && i < |updates[u]| :: updates[u][i].row < rows
           && updates[u][i].order <= MAX_ORDER
  }

  predicate Unfinished(updates: seq<seq<Update>>, s: Shelf, u: nat)
    requires u < |updates| == |s.sellers|
  {
    s.sellers[u].pc < |updates[u]|
  }

  /** One step of transaction u: the first read, or one compare-and-swap. */
  function CasStep(updates: seq<seq<Update>>, s: Shelf, u: nat): Shelf
    requires u < |updates| == |s.sellers|
  {
    var t := s.sellers[u];
    if !Unfinished(updates, s, u) || updates[u][t.pc].row >= |s.quantity| then s
    else
      var up := updates[u][t.pc];
      var current := s.quantity[up.row];
      match t.phase
      case Reading => s.(sellers := s.sellers[u := t.(phase := Trying(current))])
      case Trying(assumed) =>
        if current == assumed then
          Shelf(s.quantity[up.row := Deduct(assumed, up.order)], s.sellers[u := Seller(t.pc + 1, Reading)])
        else s.(sellers := s.sellers[u := t.(phase := Trying(current))])
  }

  function CasInitial(quantity: seq<uint32>, n: nat): Shelf {
    Shelf(quantity, seq(n, u requires 0 <= u < n => Seller(0, Reading)))
  }

  ghost predicate IsSchedule(schedule: seq<nat>, n: nat) {
    forall i: nat | i < |schedule| :: schedule[i] < n
  }

  /** The run in which the transactions step in the order of the schedule. */
  function CasRun(updates: seq<seq<Update>>, begin: seq<uint32>, schedule: seq<nat>): (s: Shelf)
    requires IsSchedule(schedule, |updates|)
    ensures |s.sellers| == |updates|
  {
    if schedule == [] then CasInitial(begin, |updates|)
    else CasStep(updates, CasRun(updates, begin, schedule[..|schedule| - 1]), schedule[|schedule| - 1])
  }

  // ------------------------------------------------------------------ what has been sold

  /** The orders for row r among the first i updates of a transaction. */
  function OrdersFor(updates: seq<Update>, r: nat, i: nat): (orders: seq<nat>)
    requires i <= |updates|
  {
    if i == 0 then []
    else OrdersFor(updates, r, i - 1) + (if updates[i - 1].row == r then [updates[i - 1].order] else [])
  }

  /** The orders for row r of the first n transactions, in transaction order. */
  function AllOrders(updates: seq<seq<Update>>, r: nat, n: nat): seq<nat>
    requires n <= |updates|
  {
    if n == 0 then [] else AllOrders(updates, r, n - 1) + OrdersFor(updates[n - 1], r, |updates[n - 1]|)
  }

  ghost predicate PcsOk(updates: seq<seq<Update>>, s: Shelf) {
    |s.sellers| == |updates| && forall u: nat | u < |updates| :: s.sellers[u].pc <= |updates[u]|
  }

  function Sold(updates: seq<seq<Update>>, s: Shelf, r: nat): (sold: seq<int>)
    requires PcsOk(updates, s)
    ensures |sold| == |updates|
    ensures forall u: nat | u < |updates| :: sold[u] == Total(OrdersFor(updates[u], r, s.sellers[u].pc))
  {
    seq(|updates|, u requires 0 <= u < |updates| => Total(OrdersFor(updates[u], r, s.sellers[u].pc)))
  }

  ghost predicate RowSold(updates: seq<seq<Update>>, begin: seq<uint32>, s: Shelf, r: nat)
    requires PcsOk(updates, s) && |s.quantity| == |begin| && r < |begin|
  {
    && InStock(s.quantity[r])
    && Congruent(s.quantity[r], begin[r] - Progress.Sum(Sold(updates, s, r)))
  }

  /** Every row has lost, modulo 91, exactly what has been sold of it. */
  ghost predicate CasInv(updates: seq<seq<Update>>, begin: seq<uint32>, s: Shelf) {
    && PcsOk(updates, s) && |s.quantity| == |begin|
    && forall r: nat | r < |begin| :: RowSold(updates, begin, s, r)
  }

  lemma {:induction false} SumOfOne(xs: seq<int>, ys: seq<int>, u: nat, d: int)
    requires |xs| == |ys| && u < |xs| && ys[u] == xs[u] + d
    requires forall i: nat | i < |xs| && i != u :: ys[i] == xs[i]
    ensures Progress.Sum(ys) == Progress.Sum(xs) + d
  {
    var n := |xs| - 1;
    if u < n {
      SumOfOne(xs[..n], ys[..n], u, d);
    } else {
      assert xs[..n] == ys[..n];
    }
  }

  lemma {:induction false} SumOfZeros(xs: seq<int>)
    requires forall i: nat | i < |xs| :: xs[i] == 0
    ensures Progress.Sum(xs) == 0
  {
    if xs != [] { SumOfZeros(xs[..|xs| - 1]); }
  }

  lemma {:induction false} CasInitialInv(updates: seq<seq<Update>>, begin: seq<uint32>)
    requires forall r: nat | r < |begin| :: InStock(begin[r])
    ensures CasInv(updates, begin, CasInitial(begin, |updates|))
  {
    var s := CasInitial(begin, |updates|);
    forall r: nat | r < |begin| ensures RowSold(updates, begin, s, r) {
      SumOfZeros(Sold(updates, s, r));
    }
  }

  /** A successful compare-and-swap sells one order of one row. */
  lemma {:induction false} SwapSells(updates: seq<seq<Update>>, s: Shelf, s': Shelf, u: nat, r: nat)
    requires PcsOk(updates, s) && u < |updates| && s.sellers[u].pc < |updates[u]|
    requires s'.sellers == s.sellers[u := Seller(s.sellers[u].pc + 1, Reading)]
    ensures PcsOk(updates, s')
    ensures var up := updates[u][s.sellers[u].pc];
            Progress.Sum(Sold(updates, s', r)) == Progress.Sum(Sold(updates, s, r)) + (if up.row == r then up.order
              else 0)
  {
    var pc := s.sellers[u].pc;
    var up := updates[u][pc];
    var was, now := OrdersFor(updates[u], r, pc), OrdersFor(updates[u], r, pc + 1);
    TotalAppend(was, up.order);
    assert now == if up.row == r then was + [up.order] else was;
    SumOfOne(Sold(updates, s, r), Sold(updates, s', r), u, if up.row == r then up.order else 0);
  }

  lemma {:induction false} SwapKeepsRow(updates: seq<seq<Update>>, begin: seq<uint32>, s: Shelf, s': Shelf, u: nat,
                                        r: nat)
    requires UpdatesOk(updates, |begin|) && CasInv(updates, begin, s) && u < |updates| && r < |begin|
    requires Unfinished(updates, s, u) && s' == CasStep(updates, s, u)
    requires s.sellers[u].phase == Trying(s.quantity[updates[u][s.sellers[u].pc].row])
    ensures PcsOk(updates, s') && |s'.quantity| == |begin| && RowSold(updates, begin, s', r)
  {
    hide Deduct, Congruent, CasStep, Progress.Sum, Sold, Total, InStock;
    var up := updates[u][s.sellers[u].pc];
    assert up.row < |begin| && up.order <= MAX_ORDER && PcsOk(updates, s) && RowSold(updates, begin, s, r);
    hide CasInv, UpdatesOk, PcsOk;
    SwappedRow(updates, s, u, r);
    SwapSells(updates, s, s', u, r);
    if up.row == r {
      DeductResidue(s.quantity[r], up.order, begin[r], Progress.Sum(Sold(updates, s, r)));
    }
  }

  lemma {:induction false} SwappedRow(updates: seq<seq<Update>>, s: Shelf, u: nat, r: nat)
    requires u < |updates| == |s.sellers| && Unfinished(updates, s, u) && updates[u][s.sellers[u].pc].row < |s.quantity|
             && r < |s.quantity|
    requires s.sellers[u].phase == Trying(s.quantity[updates[u][s.sellers[u].pc].row])
    ensures var up := updates[u][s.sellers[u].pc];
            && CasStep(updates, s, u).sellers == s.sellers[u := Seller(s.sellers[u].pc + 1, Reading)]
            && |CasStep(updates, s, u).quantity| == |s.quantity|
            && CasStep(updates, s, u).quantity[r] == if up.row == r then Deduct(s.quantity[r], up.order)
               else s.quantity[r]
  {
    hide Deduct;
  }

  lemma DeductResidue(q: uint32, order: uint32, begin: nat, sold: int)
    requires InStock(q) && order <= MAX_ORDER && Congruent(q, begin - sold)
    ensures InStock(Deduct(q, order)) && Congruent(Deduct(q, order), begin - (sold + order))
  {
    InRange(q, order);
    DeductIsSubtraction(q, order, begin - sold);
    hide Deduct, Congruent;
  }

  lemma {:induction false} SameSold(updates: seq<seq<Update>>, s: Shelf, s': Shelf, r: nat)
    requires PcsOk(updates, s) && |s'.sellers| == |s.sellers|
    requires forall u: nat | u < |updates| :: s'.sellers[u].pc == s.sellers[u].pc
    ensures PcsOk(updates, s') && Sold(updates, s', r) == Sold(updates, s, r)
  {}

  lemma {:induction false} CasStepKeepsInv(updates: seq<seq<Update>>, begin: seq<uint32>, s: Shelf, u: nat)
    requires UpdatesOk(updates, |begin|) && CasInv(updates, begin, s) && u < |updates|
    ensures CasInv(updates, begin, CasStep(updates, s, u))
  {
    if Unfinished(updates, s, u) {
      var up := updates[u][s.sellers[u].pc];
      assert RowSold(updates, begin, s, up.row);
      if s.sellers[u].phase == Trying(s.quantity[up.row]) {
        hide CasStep, RowSold, UpdatesOk;
        ShelfStays(updates, s, u);
        forall r: nat | r < |begin|
          ensures PcsOk(updates, CasStep(updates, s, u)) && RowSold(updates, begin, CasStep(updates, s, u), r)
        {
          SwapKeepsRow(updates, begin, s, CasStep(updates, s, u), u, r);
        }
      } else {
        RetryKeepsInv(updates, begin, s, u);
      }
    }
  }

  lemma {:induction false} ShelfStays(updates: seq<seq<Update>>, s: Shelf, u: nat)
    requires PcsOk(updates, s) && u < |updates| && Unfinished(updates, s, u)
    ensures PcsOk(updates, CasStep(updates, s, u)) && |CasStep(updates, s, u).quantity| == |s.quantity|
  {
    hide Deduct;
  }

  lemma {:induction false} RetryKeepsInv(updates: seq<seq<Update>>, begin: seq<uint32>, s: Shelf, u: nat)
    requires UpdatesOk(updates, |begin|) && CasInv(updates, begin, s) && u < |updates| && Unfinished(updates, s, u)
    requires updates[u][s.sellers[u].pc].row < |begin|
    requires s.sellers[u].phase != Trying(s.quantity[updates[u][s.sellers[u].pc].row])
    ensures CasInv(updates, begin, CasStep(updates, s, u))
  {
    var s' := CasStep(updates, s, u);
    assert s'.quantity == s.quantity && |s'.sellers| == |s.sellers|;
    SameSold(updates, s, s', 0);
    hide CasStep, UpdatesOk, Congruent, Sold;
    forall r: nat | r < |begin| ensures RowSold(updates, begin, s', r) {
      assert RowSold(updates, begin, s, r);
      SameSold(updates, s, s', r);
    }
  }

  lemma {:induction false} CasRunKeepsInv(updates: seq<seq<Update>>, begin: seq<uint32>, schedule: seq<nat>)
    requires UpdatesOk(updates, |begin|) && IsSchedule(schedule, |updates|)
    requires forall r: nat | r < |begin| :: InStock(begin[r])
    ensures CasInv(updates, begin, CasRun(updates, begin, schedule))
  {
    if schedule == [] {
      CasInitialInv(updates, begin);
    } else {
      hide CasInv, CasStep;
      CasRunKeepsInv(updates, begin, schedule[..|schedule| - 1]);
      CasStepKeepsInv(updates, begin, CasRun(updates, begin, schedule[..|schedule| - 1]), schedule[|schedule| - 1]);
    }
  }

  // ------------------------------------------------------------------ the result

  lemma {:induction false} OrdersForOk(updates: seq<Update>, r: nat, i: nat)
    requires i <= |updates| && forall j: nat | j < |updates| :: updates[j].order <= MAX_ORDER
    ensures OrdersOk(OrdersFor(updates, r, i))
  {
    if i > 0 { OrdersForOk(updates, r, i - 1); }
  }

  lemma {:induction false} AllOrdersOk(updates: seq<seq<Update>>, rows: nat, r: nat, n: nat)
    requires UpdatesOk(updates, rows) && n <= |updates|
    ensures OrdersOk(AllOrders(updates, r, n))
  {
    if n > 0 {
      AllOrdersOk(updates, rows, r, n - 1);
      var last := updates[n - 1];
      forall j: nat | j < |last| ensures last[j].order <= MAX_ORDER {
        assert updates[n - 1][j] == last[j];
      }
      OrdersForOk(last, r, |last|);
    }
  }

  lemma {:induction false} AllSold(updates: seq<seq<Update>>, s: Shelf, r: nat, n: nat)
    requires PcsOk(updates, s) && n <= |updates| && forall u: nat | u < |updates| :: !Unfinished(updates, s, u)
    ensures Progress.Sum(Sold(updates, s, r)[..n]) == Total(AllOrders(updates, r, n))
  {
    if n > 0 {
      AllSold(updates, s, r, n - 1);
      assert !Unfinished(updates, s, n - 1);
      TotalConcat(AllOrders(updates, r, n - 1), OrdersFor(updates[n - 1], r, |updates[n - 1]|));
      assert Sold(updates, s, r)[..n][..n - 1] == Sold(updates, s, r)[..n - 1];
    }
  }

  lemma InvOfRow(updates: seq<seq<Update>>, begin: seq<uint32>, s: Shelf, r: nat)
    requires CasInv(updates, begin, s) && r < |begin|
    ensures PcsOk(updates, s) && |s.sellers| == |updates| && |s.quantity| == |begin| && RowSold(updates, begin, s, r)
  {
    hide RowSold;
  }

  /** However the compare-and-swaps interleave, every row ends with the quantity that selling the
      orders one after the other, in transaction order, leaves. */
  lemma {:induction false} CasEndsSerially(updates: seq<seq<Update>>, begin: seq<uint32>, s: Shelf, r: nat)
    requires UpdatesOk(updates, |begin|) && CasInv(updates, begin, s) && r < |begin| && InStock(begin[r])
    requires forall u: nat | u < |updates| :: !Unfinished(updates, s, u)
    ensures OrdersOk(AllOrders(updates, r, |updates|))
    ensures s.quantity[r] == Sell(begin[r], AllOrders(updates, r, |updates|))
  {
    hide CasInv, UpdatesOk, PcsOk, Progress.Sum, AllOrders, Sell, Total, Congruent;
    var orders := AllOrders(updates, r, |updates|);
    InvOfRow(updates, begin, s, r);
    AllOrdersOk(updates, |begin|, r, |updates|);
    AllSold(updates, s, r, |updates|);
    assert Sold(updates, s, r)[..|updates|] == Sold(updates, s, r);
    SellIsSubtraction(begin[r], orders);
    Opposite(Sell(begin[r], orders), begin[r] - Total(orders));
    SameResidue(s.quantity[r], begin[r] - Total(orders), Sell(begin[r], orders));
    ResidueDecides(s.quantity[r], Sell(begin[r], orders));
  }

  // ------------------------------------------------------------------ lock freedom

  /** 2 before the read, 1 when the assumed quantity is out of date, 0 when the next
      compare-and-swap will succeed. */
  function Effort(updates: seq<seq<Update>>, s: Shelf, u: nat): int
    requires u < |updates| == |s.sellers|
  {
    if !Unfinished(updates, s, u) then 0
    else if s.sellers[u].phase.Reading? then 2
    else
      var row := updates[u][s.sellers[u].pc].row;
      if row < |s.quantity| && s.quantity[row] == s.sellers[u].phase.assumed then 0 else 1
  }

  /** Updates left, each worth more than all efforts together, and the present effort. */
  function Costs(updates: seq<seq<Update>>, s: Shelf): (costs: seq<int>)
    requires |updates| == |s.sellers|
    ensures |costs| == |updates|
    ensures forall u: nat | u < |updates| ::
              costs[u] == (|updates[u]| - s.sellers[u].pc) * (2 * |updates| + 1) + Effort(updates, s, u)
  {
    seq(|updates|, u requires 0 <= u < |updates| =>
      (|updates[u]| - s.sellers[u].pc) * (2 * |updates| + 1) + Effort(updates, s, u))
  }

  function CasMeasure(updates: seq<seq<Update>>, s: Shelf): int
    requires |updates| == |s.sellers|
  {
    Progress.Sum(Costs(updates, s))
  }

  lemma ProductIsNatural(a: nat, b: nat)
    ensures a * b >= 0
  {}

  lemma EffortIsNatural(updates: seq<seq<Update>>, s: Shelf, u: nat)
    requires u < |updates| == |s.sellers|
    ensures 0 <= Effort(updates, s, u) <= 2
  {}

  lemma {:induction false} CasMeasureIsNatural(updates: seq<seq<Update>>, s: Shelf)
    requires PcsOk(updates, s)
    ensures CasMeasure(updates, s) >= 0
  {
    hide Effort;
    forall u: nat | u < |updates| ensures Costs(updates, s)[u] >= 0 {
      ProductIsNatural(|updates[u]| - s.sellers[u].pc, 2 * |updates| + 1);
      EffortIsNatural(updates, s, u);
    }
    Progress.SumIsNatural(Costs(updates, s));
  }

  lemma {:induction false} SumBounded(xs: seq<int>, ys: seq<int>, u: nat, n: nat, big: int)
    requires |xs| == |ys| && n <= |xs|
    requires forall i: nat | i < n :: ys[i] <= xs[i] + (if i == u then 2 - big else 2)
    ensures Progress.Sum(ys[..n]) <= Progress.Sum(xs[..n]) + 2 * n - (if u < n then big else 0)
  {
    if n > 0 {
      SumBounded(xs, ys, u, n - 1, big);
      assert xs[..n][..n - 1] == xs[..n - 1] && ys[..n][..n - 1] == ys[..n - 1];
    }
  }

  lemma Distribute(a: int, b: int)
    ensures (a - 1) * b == a * b - b
  {}

  lemma {:induction false} SwapShrinks(updates: seq<seq<Update>>, s: Shelf, u: nat)
    requires PcsOk(updates, s) && u < |updates| && Unfinished(updates, s, u)
    requires updates[u][s.sellers[u].pc].row < |s.quantity|
    requires s.sellers[u].phase == Trying(s.quantity[updates[u][s.sellers[u].pc].row])
    ensures |CasStep(updates, s, u).sellers| == |updates|
    ensures CasMeasure(updates, CasStep(updates, s, u)) < CasMeasure(updates, s)
  {
    var s' := CasStep(updates, s, u);
    var xs, ys, big := Costs(updates, s), Costs(updates, s'), 2 * |updates| + 1;
    forall i: nat | i < |updates| ensures ys[i] <= xs[i] + (if i == u then 2 - big else 2) {
      if i == u {
        Distribute(|updates[u]| - s.sellers[u].pc, big);
      } else {
        assert s'.sellers[i] == s.sellers[i];
      }
    }
    hide PcsOk, Costs, CasStep, Effort, Unfinished;
    SumBounded(xs, ys, u, |updates|, big);
    assert xs[..|updates|] == xs && ys[..|updates|] == ys;
  }

  lemma {:induction false} RetryShrinks(updates: seq<seq<Update>>, s: Shelf, u: nat)
    requires PcsOk(updates, s) && u < |updates| && Unfinished(updates, s, u)
    requires updates[u][s.sellers[u].pc].row < |s.quantity|
    requires s.sellers[u].phase != Trying(s.quantity[updates[u][s.sellers[u].pc].row])
    ensures |CasStep(updates, s, u).sellers| == |updates|
    ensures CasMeasure(updates, CasStep(updates, s, u)) < CasMeasure(updates, s)
  {
    var s' := CasStep(updates, s, u);
    var xs, ys := Costs(updates, s), Costs(updates, s');
    forall i: nat | i < |updates| && i != u ensures ys[i] == xs[i] {
      assert s'.sellers[i] == s.sellers[i];
    }
    assert ys[u] < xs[u];
    hide PcsOk, Costs, CasStep, Effort, Unfinished;
    Progress.SumShrinks(xs, ys, u);
  }

  /** Every step of an unfinished transaction brings the end nearer: a compare-and-swap that
      fails is caused by another that succeeded. */
  lemma {:induction false} CasStepShrinks(updates: seq<seq<Update>>, begin: seq<uint32>, s: Shelf, u: nat)
    requires UpdatesOk(updates, |begin|) && CasInv(updates, begin, s) && u < |updates| && Unfinished(updates, s, u)
    ensures |CasStep(updates, s, u).sellers| == |updates|
    ensures CasMeasure(updates, CasStep(updates, s, u)) < CasMeasure(updates, s)
  {
    assert updates[u][s.sellers[u].pc].row < |s.quantity|;
    hide CasInv, UpdatesOk, CasStep, CasMeasure;
    if s.sellers[u].phase == Trying(s.quantity[updates[u][s.sellers[u].pc].row]) {
      SwapShrinks(updates, s, u);
    } else {
      RetryShrinks(updates, s, u);
    }
  }

  class StockTable {
    var quantity: array<uint32>
    var sellers: seq<Seller>

    function Now(): Shelf
      reads this, quantity
    {
      Shelf(quantity[..], sellers)
    }

    constructor (quantity: array<uint32>, n: nat)
      ensures Now() == CasInitial(quantity[..], n) && this.quantity == quantity
    {
      this.quantity := quantity;
      sellers := seq(n, u requires 0 <= u < n => Seller(0, Reading));
    }

    /** atomicCAS: returns the quantity found, and stores the new one if it is the assumed one. */
    method AtomicCas(row: nat, assumed: uint32, adjusted: uint32) returns (found: uint32)
      requires row < quantity.Length
      modifies quantity
      ensures found == old(quantity[row])
      ensures quantity[..] == if found == assumed then old(quantity[..])[row := adjusted] else old(quantity[..])
    {
      found := quantity[row];
      if found == assumed { quantity[row] := adjusted; }
    }

    method Step(updates: seq<seq<Update>>, u: nat)
      requires u < |updates| == |sellers| && Unfinished(updates, Now(), u)
      requires updates[u][sellers[u].pc].row < quantity.Length
      modifies this`sellers, quantity
      ensures Now() == CasStep(updates, old(Now()), u)
    {
      var t := sellers[u];
      var up := updates[u][t.pc];
      match t.phase {
        case Reading =>
          sellers := sellers[u := t.(phase := Trying(quantity[up.row]))];
        case Trying(assumed) =>
          var adjusted := if assumed >= Add32(up.order, 10) then Sub32(assumed, up.order)
            else Sub32(Add32(assumed, 91), up.order);
          var found := AtomicCas(up.row, assumed, adjusted);
          if found == assumed {
            sellers := sellers[u := Seller(t.pc + 1, Reading)];
          } else {
            sellers := sellers[u := t.(phase := Trying(found))];
          }
      }
    }

    /** Runs the transactions to their ends, in any interleaving. */
    method Execute(updates: seq<seq<Update>>)
      requires UpdatesOk(updates, quantity.Length) && Now() == CasInitial(quantity[..], |updates|)
      requires forall r: nat | r < quantity.Length :: InStock(quantity[r])
      modifies this`sellers, quantity
      ensures forall r: nat | r < quantity.Length ::
                OrdersOk(AllOrders(updates, r, |updates|)) && quantity[r] ==
                  Sell(old(quantity[r]), AllOrders(updates, r, |updates|))
    {
      ghost var begin := quantity[..];
      CasInitialInv(updates, begin);
      CasMeasureIsNatural(updates, Now());
      while exists u: nat :: u < |updates| && Unfinished(updates, Now(), u)
        invariant CasInv(updates, begin, Now())
        invariant CasMeasure(updates, Now()) >= 0
        decreases CasMeasure(updates, Now())
      {
        var u: nat :| u < |updates| && Unfinished(updates, Now(), u);
        ghost var s := Now();
        Step(updates, u);
        CasStepKeepsInv(updates, begin, s, u);
        CasStepShrinks(updates, begin, s, u);
        CasMeasureIsNatural(updates, Now());
      }
      forall r: nat | r < quantity.Length
        ensures OrdersOk(AllOrders(updates, r, |updates|))
                && quantity[r] == Sell(begin[r], AllOrders(updates, r, |updates|))
      {
        CasEndsSerially(updates, begin, Now(), r);
      }
    }
  }
}
