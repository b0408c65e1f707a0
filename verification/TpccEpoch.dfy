/** A whole TPC-C batch: what the planners of all tables leave in the plans makes the epoch ready
    to run. */
module TpccEpoch {
  import opened Accesses
  import opened DeviceExecution
  import opened Execution
  import opened Machine
  import Offsets
  import opened Planner
  import opened PlannerKernels
  import opened Tables
  import opened TpccTables
  import opened TpccSubmitter

  /** An access and the transaction that makes it. */
  datatype Placed = Placed(txn: nat, touch: Touch)

  function Place(ts: seq<Touch>, txn: nat): (ps: seq<Placed>)
    ensures |ps| == |ts| && forall g: nat | g < |ps| :: ps[g] == Placed(txn, ts[g])
  {
    seq(|ts|, g requires 0 <= g < |ts| => Placed(txn, ts[g]))
  }

  /** All accesses of the first n transactions, as executed one after the other. */
  function All(txns: seq<Params>, n: nat): seq<Placed>
    requires n <= |txns|
  {
    if n == 0 then [] else All(txns, n - 1) + Place(Program(txns[n - 1]), n - 1)
  }

  /** What table's planner gets from the first n transactions. */
  function Submitted(txns: seq<Params>, table: nat, n: nat): seq<Placed>
    requires n <= |txns|
  {
    if n == 0 then [] else Submitted(txns, table, n - 1) + Place(Emits(txns[n - 1], table), n - 1)
  }

  function OpOf(p: Placed): Op { Op(p.touch.row, p.txn, p.touch.write, p.touch.word) }

  function Ops(ps: seq<Placed>): (ops: seq<Op>)
    ensures |ops| == |ps| && forall g: nat | g < |ps| :: ops[g] == OpOf(ps[g])
  {
    seq(|ps|, g requires 0 <= g < |ps| => OpOf(ps[g]))
  }

  function Batch(txns: seq<Params>, table: nat): seq<Op> {
    Ops(Submitted(txns, table, |txns|))
  }

  function ExecutedAccesses(ps: seq<Placed>): (a: seq<Access<Key>>)
    ensures |a| == |ps|
    ensures forall g: nat | g < |ps| ::
            a[g] == Access(Key(ps[g].touch.table, ps[g].touch.row), ps[g].txn, ps[g].touch.write)
  {
    seq(|ps|, g requires 0 <= g < |ps| => Access(Key(ps[g].touch.table, ps[g].touch.row), ps[g].txn, ps[g].touch.write))
  }

  ghost predicate TxnsBelow(ps: seq<Placed>, n: nat) {
    forall g: nat | g < |ps| :: ps[g].txn < n
  }

  function WordsOf(ps: seq<Placed>, base: seq<nat>): (w: seq<nat>)
    requires TxnsBelow(ps, |base|)
    ensures |w| == |ps| && forall g: nat | g < |ps| :: w[g] == base[ps[g].txn] + ps[g].touch.word
  {
    seq(|ps|, g requires 0 <= g < |ps| => base[ps[g].txn] + ps[g].touch.word)
  }

  function TpccJob(txns: seq<Params>, lane: (nat, seq<Row>, nat) -> Word, width: nat -> nat): Job {
    Job(ExecutedAccesses(All(txns, |txns|)),
        seq(|txns| + 1, u requires 0 <= u <= |txns| => |All(txns, u)|), lane, width)
  }

  // ------------------------------------------------------------------ the job

  lemma {:induction false} AllPrefix(txns: seq<Params>, m: nat, n: nat)
    requires m <= n <= |txns|
    ensures All(txns, m) <= All(txns, n)
    decreases n - m
  {
    hide Program;
    if m < n { AllPrefix(txns, m, n - 1); }
  }

  lemma {:induction false} AllOwner(txns: seq<Params>, n: nat, g: nat)
    requires n <= |txns| && g < |All(txns, n)|
    ensures var u := All(txns, n)[g].txn;
            && u < n && |All(txns, u)| <= g < |All(txns, u + 1)| && g - |All(txns, u)| < |Program(txns[u])|
            && All(txns, n)[g].touch == Program(txns[u])[g - |All(txns, u)|]
    decreases n
  {
    hide Program;
    if g < |All(txns, n - 1)| { AllOwner(txns, n - 1, g); }
  }

  lemma {:induction false} TpccJobIsWellFormed(txns: seq<Params>, lane: (nat, seq<Row>, nat) -> Word, width: nat -> nat)
    ensures WellFormed(TpccJob(txns, lane, width))
  {
    NoneYet(txns);
    hide All, Program;
    var j := TpccJob(txns, lane, width);
    forall u, v | 0 <= u <= v < |j.start| ensures j.start[u] <= j.start[v] {
      AllPrefix(txns, u, v);
    }
    forall g | 0 <= g < |j.ops| ensures var u := j.ops[g].unit; u + 1 < |j.start| && j.start[u] <= g < j.start[u + 1] {
      AllOwner(txns, |txns|, g);
    }
  }

  lemma NoneYet(txns: seq<Params>)
    ensures All(txns, 0) == []
  {}

  // ------------------------------------------------------------------ the tables' slices

  /** The places of the accesses to a table. */
  function Slice(ps: seq<Placed>, table: nat, n: nat): (idx: seq<nat>)
    requires n <= |ps|
    ensures forall i: nat | i < |idx| :: idx[i] < n && ps[idx[i]].touch.table == table
    ensures forall i: nat, j: nat | i < j < |idx| :: idx[i] < idx[j]
    ensures forall g: nat | g < n && ps[g].touch.table == table :: g in idx
  {
    if n == 0 then []
    else
      var rest := Slice(ps, table, n - 1);
      if ps[n - 1].touch.table == table then
        assert forall g | g in rest :: g in rest + [n - 1];
        assert (rest + [n - 1])[|rest|] == n - 1;
        rest + [n - 1]
      else rest
  }

  function Picked(ps: seq<Placed>, idx: seq<nat>): (qs: seq<Placed>)
    requires forall i: nat | i < |idx| :: idx[i] < |ps|
    ensures |qs| == |idx| && forall i: nat | i < |idx| :: qs[i] == ps[idx[i]]
  {
    seq(|idx|, i requires 0 <= i < |idx| => ps[idx[i]])
  }

  function FilterPlaced(ps: seq<Placed>, table: nat): seq<Placed> {
    if ps == [] then []
    else FilterPlaced(ps[..|ps| - 1], table) + (if ps[|ps| - 1].touch.table == table then [ps[|ps| - 1]] else [])
  }

  lemma {:induction false} SliceIsFilter(ps: seq<Placed>, table: nat, n: nat)
    requires n <= |ps|
    ensures Picked(ps, Slice(ps, table, n)) == FilterPlaced(ps[..n], table)
    decreases n
  {
    if n > 0 {
      SliceIsFilter(ps, table, n - 1);
      assert ps[..n][..n - 1] == ps[..n - 1];
    }
  }

  lemma {:induction false} FilterPlacedConcat(a: seq<Placed>, b: seq<Placed>, table: nat)
    ensures FilterPlaced(a + b, table) == FilterPlaced(a, table) + FilterPlaced(b, table)
    decreases |b|
  {
    if b == [] {
      assert a + b == a;
    } else {
      FilterPlacedConcat(a, b[..|b| - 1], table);
      assert (a + b)[..|a + b| - 1] == a + b[..|b| - 1];
    }
  }

  lemma {:induction false} FilterPlaces(ts: seq<Touch>, txn: nat, table: nat)
    ensures FilterPlaced(Place(ts, txn), table) == Place(Filter(ts, table), txn)
    decreases |ts|
  {
    if ts != [] {
      FilterPlaces(ts[..|ts| - 1], txn, table);
      assert Place(ts, txn)[..|ts| - 1] == Place(ts[..|ts| - 1], txn);
    }
  }

  ghost predicate SubmittedUpto(txns: seq<Params>, table: nat, n: nat)
    requires n <= |txns|
  {
    FilterPlaced(All(txns, n), table) == Submitted(txns, table, n)
  }

  lemma {:induction false} SubmittedOneMore(txns: seq<Params>, table: nat, n: nat)
    requires n < |txns| && SubmittedUpto(txns, table, n)
    ensures SubmittedUpto(txns, table, n + 1)
  {
    hide Program, Emits, Filter, FilterPlaced;
    var t := txns[n];
    assert All(txns, n + 1) == All(txns, n) + Place(Program(t), n);
    FilterPlacedConcat(All(txns, n), Place(Program(t), n), table);
    FilterPlaces(Program(t), n, table);
    ExecutesWhatIsEmitted(t, table);
  }

  /** The accesses executed on a table are the accesses submitted for it. */
  lemma {:induction false} ExecutedIsSubmitted(txns: seq<Params>, table: nat, n: nat)
    requires n <= |txns|
    ensures SubmittedUpto(txns, table, n)
    decreases n
  {
    hide SubmittedUpto;
    if n > 0 {
      ExecutedIsSubmitted(txns, table, n - 1);
      SubmittedOneMore(txns, table, n - 1);
    } else {
      NoneSubmitted(txns, table);
    }
  }

  lemma NoneSubmitted(txns: seq<Params>, table: nat)
    ensures SubmittedUpto(txns, table, 0)
  {
    assert All(txns, 0) == [];
    hide Program, Emits, Place;
  }

  // ------------------------------------------------------------------ plan words

  /** The plans of different transactions do not overlap. */
  ghost predicate PlansApart(base: seq<nat>, size: nat) {
    && (forall s, t | 0 <= s < t < |base| :: base[s] + PLAN_WORDS <= base[t])
    && (forall t | 0 <= t < |base| :: base[t] + PLAN_WORDS <= size)
  }

  ghost predicate AllFit(txns: seq<Params>) {
    forall u: nat | u < |txns| :: Fits(txns[u])
  }

  lemma {:induction false} AllTxnsBelow(txns: seq<Params>)
    ensures TxnsBelow(All(txns, |txns|), |txns|)
  {
    forall g: nat | g < |All(txns, |txns|)| ensures All(txns, |txns|)[g].txn < |txns| {
      AllOwner(txns, |txns|, g);
    }
  }

  /** Over all tables and transactions no two accesses of the batch are given the same word. */
  lemma {:induction false} AllWordsDiffer(txns: seq<Params>, base: seq<nat>, size: nat, g: nat, h: nat)
    requires AllFit(txns) && |base| == |txns| && PlansApart(base, size)
    requires g < h < |All(txns, |txns|)|
    ensures var all := All(txns, |txns|);
            && all[g].txn < |base| && all[h].txn < |base|
            && base[all[g].txn] + all[g].touch.word != base[all[h].txn] + all[h].touch.word
            && base[all[h].txn] + all[h].touch.word < size && base[all[g].txn] + all[g].touch.word < size
  {
    hide All, Program, Fits;
    AllOwner(txns, |txns|, g);
    AllOwner(txns, |txns|, h);
    var all := All(txns, |txns|);
    var u, v := all[g].txn, all[h].txn;
    ProgramWords(txns[u]);
    ProgramWords(txns[v]);
    assert u == v || base[u] + PLAN_WORDS <= base[v] || base[v] + PLAN_WORDS <= base[u];
  }

  // ------------------------------------------------------------------ the theorem

  /** Every table's planner has scattered the locations of its batch. */
  ghost predicate AllPlanned(txns: seq<Params>, base: seq<nat>, plan: seq<nat>) {
    forall t: nat :: Addressable(base, Batch(txns, t), |plan|) && HoldsPlan(base, Batch(txns, t), plan)
  }

  lemma {:induction false} TpccTablePlanned(txns: seq<Params>, base: seq<nat>, plan: seq<nat>, t: nat)
    requires |base| == |txns| && TxnsBelow(All(txns, |txns|), |txns|) && AllPlanned(txns, base, plan)
    ensures TablePlanned(base, plan, ExecutedAccesses(All(txns, |txns|)), WordsOf(All(txns, |txns|), base), t)
  {
    assert Addressable(base, Batch(txns, t), |plan|) && HoldsPlan(base, Batch(txns, t), plan);
    hide AllPlanned, All, Submitted, Slice, HoldsPlan, Addressable;
    SliceOfBatch(txns, base, t);
  }

  /** Table's batch consists of the accesses at the table's places. */
  lemma {:induction false} SliceOfBatch(txns: seq<Params>, base: seq<nat>, t: nat)
    requires |base| == |txns| && TxnsBelow(All(txns, |txns|), |txns|)
    ensures var all := All(txns, |txns|);
            var idx := Slice(all, t, |all|);
            && IsSlice(ExecutedAccesses(all), t, idx)
            && BatchOf(base, ExecutedAccesses(all), WordsOf(all, base), t, idx, Batch(txns, t))
  {
    hide All, Submitted, Slice, FilterPlaced;
    var all := All(txns, |txns|);
    var idx := Slice(all, t, |all|);
    SliceIsFilter(all, t, |all|);
    assert all[..|all|] == all;
    ExecutedIsSubmitted(txns, t, |txns|);
    SliceIsSlice(all, t, idx);
    PickedBatch(all, base, t, idx, Picked(all, idx));
  }

  lemma {:induction false} SliceIsSlice(all: seq<Placed>, t: nat, idx: seq<nat>)
    requires forall i: nat | i < |idx| :: idx[i] < |all| && all[idx[i]].touch.table == t
    requires forall i: nat, j: nat | i < j < |idx| :: idx[i] < idx[j]
    requires forall g: nat | g < |all| && all[g].touch.table == t :: g in idx
    ensures IsSlice(ExecutedAccesses(all), t, idx)
  {}

  lemma {:induction false} PickedBatch(all: seq<Placed>, base: seq<nat>, t: nat, idx: seq<nat>, picked: seq<Placed>)
    requires TxnsBelow(all, |base|) && IsSlice(ExecutedAccesses(all), t, idx)
    requires |picked| == |idx| && forall i: nat | i < |idx| :: picked[i] == all[idx[i]]
    ensures BatchOf(base, ExecutedAccesses(all), WordsOf(all, base), t, idx, Ops(picked))
  {
    forall j: nat | j < |idx| ensures Ops(picked)[j].txn < |base|
           && Address(base, Ops(picked)[j]) == WordsOf(all, base)[idx[j]] {
      assert Ops(picked)[j] == OpOf(all[idx[j]]);
    }
  }

  // ------------------------------------------------------------------ one planner after another

  /** g is the place of the i-th access to table t. */
  ghost predicate IsPlace(all: seq<Placed>, t: nat, i: nat, g: nat) {
    i < |Slice(all, t, |all|)| && Slice(all, t, |all|)[i] == g
  }

  lemma {:induction false} PlacesIncrease(all: seq<Placed>, t: nat, i: nat, j: nat, g: nat, h: nat)
    requires IsPlace(all, t, i, g) && IsPlace(all, t, j, h) && i < j
    ensures g < h
  {}

  lemma {:induction false} BatchWord(txns: seq<Params>, base: seq<nat>, size: nat, t: nat, i: nat) returns (g: nat)
    requires AllFit(txns) && |base| == |txns| && PlansApart(base, size) && TxnsBelow(All(txns, |txns|), |txns|)
    requires i < |Batch(txns, t)|
    ensures g < |All(txns, |txns|)| && All(txns, |txns|)[g].touch.table == t
    ensures IsPlace(All(txns, |txns|), t, i, g)
    ensures Batch(txns, t)[i].txn < |base| && Address(base, Batch(txns, t)[i]) ==
            WordsOf(All(txns, |txns|), base)[g] < size
  {
    hide All, Submitted, Slice, Program, Fits;
    var all := All(txns, |txns|);
    SliceOfBatch(txns, base, t);
    g := Slice(all, t, |all|)[i];
    AllOwner(txns, |txns|, g);
    ProgramWords(txns[all[g].txn]);
  }

  /** The words of two accesses differ unless it is one access to one table. */
  lemma {:induction false} BatchWordsDiffer(txns: seq<Params>, base: seq<nat>, size: nat, t: nat, i: nat, t': nat,
                                            i': nat)
    requires AllFit(txns) && |base| == |txns| && PlansApart(base, size) && TxnsBelow(All(txns, |txns|), |txns|)
    requires i < |Batch(txns, t)| && i' < |Batch(txns, t')| && (t != t' || i < i')
    ensures Batch(txns, t)[i].txn < |base| && Batch(txns, t')[i'].txn < |base|
    ensures Address(base, Batch(txns, t)[i]) != Address(base, Batch(txns, t')[i'])
  {
    hide All, Slice, Batch, PlansApart, AllFit, IsPlace, TxnsBelow;
    var g := BatchWord(txns, base, size, t, i);
    var g' := BatchWord(txns, base, size, t', i');
    if t == t' { PlacesIncrease(All(txns, |txns|), t, i, i', g, g'); }
    hide All, Slice, Batch, PlansApart, AllFit, IsPlace, TxnsBelow, WordsOf;
    if g < g' { AllWordsDiffer(txns, base, size, g, g'); } else { AllWordsDiffer(txns, base, size, g', g); }
  }

  /** Each table's batch meets the planner's requirements. */
  lemma {:induction false} BatchIsAddressable(txns: seq<Params>, base: seq<nat>, size: nat, t: nat)
    requires AllFit(txns) && |base| == |txns| && PlansApart(base, size)
    ensures Addressable(base, Batch(txns, t), size) && PlannerKernels.DistinctWords(base, Batch(txns, t), size)
  {
    AllTxnsBelow(txns);
    hide Batch, PlansApart, AllFit, All, Slice;
    forall i: nat | i < |Batch(txns, t)| ensures Batch(txns, t)[i].txn < |base|
           && Address(base, Batch(txns, t)[i]) < size {
      var g := BatchWord(txns, base, size, t, i);
    }
    forall i: nat, j: nat | i < j < |Batch(txns, t)|
           ensures Address(base, Batch(txns, t)[i]) != Address(base, Batch(txns, t)[j]) {
      BatchWordsDiffer(txns, base, size, t, i, t, j);
    }
  }

  ghost predicate PlannedBelow(txns: seq<Params>, base: seq<nat>, plan: seq<nat>, n: nat) {
    forall t: nat | t < n :: Addressable(base, Batch(txns, t), |plan|) && HoldsPlan(base, Batch(txns, t), plan)
  }

  /** The next table's planner adds its locations and leaves those of the other tables alone. */
  lemma {:induction false} OneMoreTable(txns: seq<Params>, base: seq<nat>, was: seq<nat>, now: seq<nat>, n: nat)
    requires AllFit(txns) && |base| == |txns| && PlansApart(base, |now|) && |was| == |now|
    requires PlannedBelow(txns, base, was, n)
    requires Addressable(base, Batch(txns, n), |now|) && HoldsPlan(base, Batch(txns, n), now)
    requires KeepsOtherWords(base, Batch(txns, n), was, now)
    ensures PlannedBelow(txns, base, now, n + 1)
  {
    AllTxnsBelow(txns);
    forall t: nat | t < n ensures Addressable(base, Batch(txns, t), |now|) && HoldsPlan(base, Batch(txns, t), now) {
      assert Addressable(base, Batch(txns, t), |was|) && HoldsPlan(base, Batch(txns, t), was);
      hide HoldsPlan, KeepsOtherWords, Batch, PlansApart, AllFit, PlannedBelow, TxnsBelow, All;
      forall i: nat, j: nat | i < |Batch(txns, t)| && j < |Batch(txns, n)|
        ensures Address(base, Batch(txns, t)[i]) != Address(base, Batch(txns, n)[j])
      {
        BatchWordsDiffer(txns, base, |now|, t, i, n, j);
      }
      OtherPlannersKeepPlan(base, Batch(txns, t), Batch(txns, n), was, now);
    }
  }

  lemma {:induction false} NoOtherTables(t: Params, table: nat)
    requires table >= 8
    ensures Emits(t, table) == []
  {
    match t
    case NewOrder(_, _, _, _, _, items) => NoItemsElsewhere(items, table, |items|);
    case Payment(_, _, _) =>
    case OrderStatus(_, _, _) =>
    case Delivery(entries) => EntriesCount(entries, table, |entries|);
    case StockLevel(_) =>
  }

  lemma {:induction false} NothingElsewhere(txns: seq<Params>, table: nat, n: nat)
    requires n <= |txns| && table >= 8
    ensures Submitted(txns, table, n) == []
    decreases n
  {
    hide Emits;
    if n > 0 {
      NothingElsewhere(txns, table, n - 1);
      NoOtherTables(txns[n - 1], table);
      assert Place([], n - 1) == [];
    }
  }

  lemma {:induction false} EightTablesAreAll(txns: seq<Params>, base: seq<nat>, plan: seq<nat>)
    requires PlannedBelow(txns, base, plan, 8)
    ensures AllPlanned(txns, base, plan)
  {
    forall t: nat ensures Addressable(base, Batch(txns, t), |plan|) && HoldsPlan(base, Batch(txns, t), plan) {
      if t >= 8 {
        NothingElsewhere(txns, t, |txns|);
        NothingToPlan(base, Batch(txns, t), plan);
      }
    }
  }

  /** What the planners of all tables leave in the plans is a correct plan for the batch. */
  lemma {:induction false} TpccIsReady(txns: seq<Params>, base: seq<nat>, plan: seq<nat>, c: Config)
    requires AllFit(txns) && |base| == |txns| && PlansApart(base, |plan|) && AllPlanned(txns, base, plan)
    requires TxnsBelow(All(txns, |txns|), |txns|)
    requires forall g | 0 <= g < |All(txns, |txns|)| :: WordsOf(All(txns, |txns|), base)[g] < |plan|
    requires c.job == TpccJob(txns, c.job.lane, c.job.width)
    requires c.loc == PlannedLocs(plan, WordsOf(All(txns, |txns|), base))
    requires c.epoch > 0 && HandOff(c.begin, c.epoch)
    ensures Ready(c)
  {
    hide AllPlanned, AllFit, PlansApart, TablePlanned, All;
    TpccJobIsWellFormed(txns, c.job.lane, c.job.width);
    var all := All(txns, |txns|);
    forall t: nat ensures TablePlanned(base, plan, ExecutedAccesses(all), WordsOf(all, base), t) {
      TpccTablePlanned(txns, base, plan, t);
    }
    PlansCompose(base, plan, ExecutedAccesses(all), WordsOf(all, base));
  }

  // ------------------------------------------------------------------ the Delivery shortcut

  /** A Delivery's write of an order line, for which the executor does not look into its plan. */
  predicate IsShortcut(txns: seq<Params>, p: Placed) {
    p.txn < |txns| && txns[p.txn].Delivery? && p.touch.table == ORDER_LINE && p.touch.write
  }

  /** The locations with which the accesses are really executed. */
  function ExecutedLocs(txns: seq<Params>, all: seq<Placed>, planned: seq<Loc>): (loc: seq<Loc>)
    requires |planned| == |all|
    ensures |loc| == |all|
    ensures forall g: nat | g < |all| :: loc[g] == if IsShortcut(txns, all[g]) then RecordB else planned[g]
  {
    seq(|all|, g requires 0 <= g < |all| => if IsShortcut(txns, all[g]) then RecordB else planned[g])
  }

  /** In this batch nobody writes an order line after it was delivered. */
  ghost predicate DeliveredLast(txns: seq<Params>) {
    var all := All(txns, |txns|);
    forall g: nat | g < |all| && IsShortcut(txns, all[g]) :: NoLaterWrite(ExecutedAccesses(all), g)
  }

  /** The shortcut is right for exactly the batches in which a delivered order line is written no
      more. */
  lemma {:induction false} ShortcutIff(txns: seq<Params>, planned: seq<Loc>)
    requires PlanOk(ExecutedAccesses(All(txns, |txns|)), planned, TableOf)
    ensures ExecutedLocs(txns, All(txns, |txns|), planned) == planned <==> DeliveredLast(txns)
  {
    hide All, NoLaterWrite, SlotsDistinct, ReadsFollowWrites;
    var all := All(txns, |txns|);
    var loc := ExecutedLocs(txns, all, planned);
    forall g: nat | g < |all| && IsShortcut(txns, all[g]) ensures loc[g] == planned[g]
           <==> NoLaterWrite(ExecutedAccesses(all), g) {
      assert ExecutedAccesses(all)[g].write;
    }
    if loc == planned {
      forall g: nat | g < |all| && IsShortcut(txns, all[g]) ensures NoLaterWrite(ExecutedAccesses(all), g) {
        assert loc[g] == planned[g];
      }
    } else {
      var g: nat :| g < |all| && loc[g] != planned[g];
      assert IsShortcut(txns, all[g]);
    }
  }

  // ------------------------------------------------------------------ the whole epoch

  /** What the transactions' threads write into table's buffer. */
  function Parts(txns: seq<Params>, table: nat): (parts: seq<seq<Op>>)
    ensures |parts| == |txns|
    ensures forall u: nat | u < |txns| :: parts[u] == Ops(Place(Emits(txns[u], table), u))
  {
    seq(|txns|, u requires 0 <= u < |txns| => Ops(Place(Emits(txns[u], table), u)))
  }

  lemma {:induction false} PartsAreBatch(txns: seq<Params>, table: nat, n: nat)
    requires n <= |txns|
    ensures Offsets.Concat(Parts(txns, table), n) == Ops(Submitted(txns, table, n))
    decreases n
  {
    hide Emits;
    if n > 0 {
      PartsAreBatch(txns, table, n - 1);
      OpsConcat(Submitted(txns, table, n - 1), Place(Emits(txns[n - 1], table), n - 1));
    }
  }

  lemma OpsConcat(a: seq<Placed>, b: seq<Placed>)
    ensures Ops(a + b) == Ops(a) + Ops(b)
  {}

  /** The first pass counts what every thread of the second pass will write. */
  method CountOps(txns: seq<Params>, table: nat, numOps: array<nat>)
    requires AllFit(txns) && |txns| <= numOps.Length
    modifies numOps
    ensures forall u: nat | u < |txns| :: numOps[u] == |Parts(txns, table)[u]|
  {
    hide NumOps, Emits, Fits;
    for u := 0 to |txns|
      invariant forall v: nat | v < u :: numOps[v] == |Parts(txns, table)[v]|
    {
      CountsWhatIsEmitted(txns[u], table);
      numOps[u] := NumOps(txns[u], table);
    }
  }

  /** Both passes and the prefix sum between them.  The threads of the second pass may run in any
      order. */
  method SubmitTable(txns: seq<Params>, table: nat, numOps: array<nat>, offsets: array<nat>, dest: array<Op>)
    returns (currNumOps: nat)
    requires AllFit(txns) && |Batch(txns, table)| <= dest.Length
    requires |txns| <= numOps.Length && |txns| < offsets.Length && numOps != offsets && offsets[0] == 0
    modifies numOps, offsets, dest
    ensures currNumOps == |Batch(txns, table)| && dest[..currNumOps] == Batch(txns, table)
  {
    hide Emits, Place, AllFit, Submitted;
    PartsAreBatch(txns, table, |txns|);
    CountOps(txns, table, numOps);
    Offsets.InclusiveSum(Parts(txns, table), numOps, offsets, |txns|);
    currNumOps := Offsets.WriteParts(Parts(txns, table), offsets, dest);
  }

  type TablePlanner = GpuTableExecutionPlanner

  /** The planners of the tables share nothing, and the plans are no scratch buffer. */
  ghost predicate Separate(planners: seq<TablePlanner>, plan: array<nat>) {
    && (forall i, j | 0 <= i < j < |planners| :: planners[i] != planners[j])
    && (forall i, j | 0 <= i < |planners| && 0 <= j < |planners| :: planners[i].submittedOps != planners[j].sortedOps)
    && (forall i, j | 0 <= i < j < |planners| :: planners[i].submittedOps != planners[j].submittedOps)
    && (forall i | 0 <= i < |planners| ::
          plan != planners[i].writeOpsBefore && plan != planners[i].writeOpsAfter
            && plan != planners[i].tverWriteOpsBefore)
  }

  ghost predicate Loaded(planners: seq<TablePlanner>, txns: seq<Params>, n: nat)
    requires n <= |planners|
    reads planners, set p | p in planners :: p.submittedOps
  {
    && (forall i: nat | i < |planners| :: planners[i].Valid() && planners[i].maxNumOps >= |Batch(txns, i)|)
    && (forall i: nat | i < n :: planners[i].Submitted() == Batch(txns, i))
  }

  method SubmitTables(txns: seq<Params>, planners: seq<TablePlanner>, ghost plan: array<nat>)
    requires AllFit(txns) && Separate(planners, plan) && Loaded(planners, txns, 0)
    modifies planners, set p | p in planners :: p.submittedOps
    ensures Loaded(planners, txns, |planners|)
  {
    for t := 0 to |planners|
      invariant Loaded(planners, txns, t)
    {
      LoadPlanner(txns, planners, t, plan);
    }
  }

  method LoadOne(txns: seq<Params>, planner: TablePlanner, t: nat)
    requires AllFit(txns) && planner.Valid() && planner.maxNumOps >= |Batch(txns, t)|
    modifies planner, planner.submittedOps
    ensures planner.Valid() && planner.Submitted() == Batch(txns, t)
  {
    hide Batch, AllFit;
    var numOps, offsets := new nat[|txns|], new nat[|txns| + 1](_ => 0);
    planner.currNumOps := SubmitTable(txns, t, numOps, offsets, planner.submittedOps);
  }

  method LoadPlanner(txns: seq<Params>, planners: seq<TablePlanner>, t: nat, ghost plan: array<nat>)
    requires AllFit(txns) && t < |planners| && Separate(planners, plan) && Loaded(planners, txns, t)
    modifies planners[t], planners[t].submittedOps
    ensures Loaded(planners, txns, t + 1)
  {
    hide Batch, AllFit, GpuTableExecutionPlanner.Valid;
    LoadOne(txns, planners[t], t);
  }

  method PlanTables(txns: seq<Params>, planners: seq<TablePlanner>, base: seq<nat>, plan: array<nat>)
    requires |planners| == 8 && Separate(planners, plan) && Loaded(planners, txns, 8)
    requires AllFit(txns) && |base| == |txns| && PlansApart(base, plan.Length)
    requires forall t: nat :: |Batch(txns, t)| < WORD
    modifies plan, set p | p in planners :: p.sortedOps, set p | p in planners :: p.rwOpsType
    modifies set p | p in planners :: p.writeOpsBefore, set p | p in planners :: p.writeOpsAfter
    modifies set p | p in planners :: p.tverWriteOpsBefore
    ensures Loaded(planners, txns, 8) && AllPlanned(txns, base, plan[..])
  {
    hide PlansApart, AllFit, Batch;
    for t := 0 to 8
      invariant Loaded(planners, txns, 8) && PlannedBelow(txns, base, plan[..], t)
    {
      BatchIsAddressable(txns, base, plan.Length, t);
      ghost var was := plan[..];
      assert planners[t].Submitted() == Batch(txns, t);
      planners[t].InitializeExecutionPlan(plan, base);
      OneMoreTable(txns, base, was, plan[..], t);
    }
    EightTablesAreAll(txns, base, plan[..]);
  }

  /** The executor, which finds its locations in what the planners have left. */
  method ExecutePlanned(txns: seq<Params>, base: seq<nat>, plan: seq<nat>, device: Device, epoch: nat,
                        lane: (nat, seq<Row>, nat) -> Word, width: nat -> nat)
    requires AllFit(txns) && DeliveredLast(txns) && |base| == |txns| && PlansApart(base, |plan|)
    requires (forall t: nat :: |Batch(txns, t)| < WORD) && AllPlanned(txns, base, plan)
    requires epoch > 0 && HandOff(device.Mem(), epoch)
    modifies device
    ensures WellFormed(TpccJob(txns, lane, width)) && HandOff(device.Mem(), epoch + 1)
    ensures forall k :: Contents(device.Mem(), width)(k) ==
                        SerialResult(TpccJob(txns, lane, width), Contents(old(device.Mem()), width))(k)
  {
    hide PlansApart, AllFit, Batch, All, DeliveredLast, HandOff, Ready, AllPlanned;
    AllTxnsBelow(txns);
    var all := All(txns, |txns|);
    var job := TpccJob(txns, lane, width);
    AllWordsInPlan(txns, base, |plan|);
    var planned := PlannedLocs(plan, WordsOf(all, base));
    var c := Config(job, ExecutedLocs(txns, all, planned), epoch, device.Mem());
    TpccIsReady(txns, base, plan, c.(loc := planned));
    ShortcutHolds(txns, c.(loc := planned));
    TpccJobIsWellFormed(txns, lane, width);
    device.Launch(job);
    device.Execute(c);
  }

  /** One epoch, from the indexed transactions to the database, with the Delivery shortcut as the
      executor has it: every interleaving leaves what running the transactions in order leaves. */
  method RunEpoch(txns: seq<Params>, planners: seq<TablePlanner>, base: seq<nat>, plan: array<nat>,
                  device: Device, epoch: nat, lane: (nat, seq<Row>, nat) -> Word, width: nat -> nat)
    requires AllFit(txns) && DeliveredLast(txns)
    requires |planners| == 8 && Separate(planners, plan) && Loaded(planners, txns, 0)
    requires |base| == |txns| && PlansApart(base, plan.Length) && forall t: nat :: |Batch(txns, t)| < WORD
    requires epoch > 0 && HandOff(device.Mem(), epoch)
    modifies planners, set p | p in planners :: p.submittedOps
    modifies plan, set p | p in planners :: p.sortedOps, set p | p in planners :: p.rwOpsType
    modifies set p | p in planners :: p.writeOpsBefore, set p | p in planners :: p.writeOpsAfter
    modifies set p | p in planners :: p.tverWriteOpsBefore
    modifies device
    ensures Loaded(planners, txns, 8) && HandOff(device.Mem(), epoch + 1)
    ensures WellFormed(TpccJob(txns, lane, width))
    ensures forall k :: Contents(device.Mem(), width)(k) ==
                        SerialResult(TpccJob(txns, lane, width), Contents(old(device.Mem()), width))(k)
  {
    hide PlansApart, AllFit, Batch, DeliveredLast, HandOff, WellFormed, AllPlanned;
    SubmitTables(txns, planners, plan);
    PlanTables(txns, planners, base, plan);
    ExecutePlanned(txns, base, plan[..], device, epoch, lane, width);
  }

  lemma {:induction false} AllWordsInPlan(txns: seq<Params>, base: seq<nat>, size: nat)
    requires AllFit(txns) && |base| == |txns| && PlansApart(base, size) && TxnsBelow(All(txns, |txns|), |base|)
    ensures forall g: nat | g < |All(txns, |txns|)| :: WordsOf(All(txns, |txns|), base)[g] < size
  {
    hide All, Program, Fits;
    forall g: nat | g < |All(txns, |txns|)| ensures WordsOf(All(txns, |txns|), base)[g] < size {
      AllOwner(txns, |txns|, g);
      ProgramWords(txns[All(txns, |txns|)[g].txn]);
    }
  }

  lemma {:induction false} ShortcutHolds(txns: seq<Params>, c: Config)
    requires Ready(c) && c.job.ops == ExecutedAccesses(All(txns, |txns|)) && DeliveredLast(txns)
    ensures ExecutedLocs(txns, All(txns, |txns|), c.loc) == c.loc
  {
    ShortcutIff(txns, c.loc);
  }
}
