/** Nobody waits for ever: a spinning unit waits only for earlier accesses, and units are handed
    out in order, so as long as the epoch is unfinished something can move; and every move
    brings the end nearer. */
module Progress {
  import opened Accesses
  import opened Execution
  import opened SerialEquivalence

  // ------------------------------------------------------- whom a spinning unit waits for

  /** A spin waits for one write: the last one of the record before the waiting access, made by
      a smaller unit or earlier by the same unit. */
  lemma {:induction false} SpinsWaitBackwards(c: Config, s: State, u: nat)
    requires Ready(c) && Inv(c, s) && u < NumUnits(c.job)
    requires s.units[u].pc < c.job.start[u + 1]
    requires s.units[u].phase.Waiting?
    ensures var g := s.units[u].pc;
            g < |c.job.ops| &&
            var w := LastWrite(c.job.ops, c.job.ops[g].key, g);
            && 0 <= w < g && c.job.ops[w].unit <= u
            && (s.mem.Tag(s.units[u].phase.cell) == c.epoch <==> Done(c, s, w))
            && (c.job.ops[w].unit == u ==> Done(c, s, w))
  {
    assert UnitOk(c, s, u);
    var g := s.units[u].pc;
    StartsInRange(c.job, u + 1);
    OwnerIsUnique(c.job, u, g);
    TargetOfRead(c, g);
    TagMakesAvailable(c, s, g);
    var w := LastWrite(c.job.ops, c.job.ops[g].key, g);
    EarlierAccessEarlierUnit(c.job, w, g);
  }

  lemma {:induction false} EarlierAccessEarlierUnit(j: Job, w: nat, g: nat)
    requires WellFormed(j) && w < g < |j.ops|
    ensures j.ops[w].unit <= j.ops[g].unit
  {}

  ghost predicate UnitFinished(c: Config, s: State, u: nat)
    requires |c.job.start| == |s.units| + 1 && u < |s.units|
  {
    s.units[u].pc == c.job.start[u + 1]
  }

  /** Unit u has work left and is not held up by its spin. */
  predicate Moves(c: Config, s: State, u: nat)
    requires |c.job.start| == |s.units| + 1 && u < |s.units|
  {
    && s.units[u].pc < c.job.start[u + 1] <= |c.job.ops|
    && (s.units[u].phase.Waiting? ==> s.mem.Tag(s.units[u].phase.cell) == c.epoch)
  }

  lemma {:induction false} MovesIffChanges(c: Config, s: State, u: nat)
    requires |c.loc| == |c.job.ops| && |c.job.start| == |s.units| + 1 && u < |s.units|
    requires c.job.start[u + 1] <= |c.job.ops|
    ensures Moves(c, s, u) <==> Step(c, s, u).units[u] != s.units[u]
    ensures !Moves(c, s, u) ==> Step(c, s, u) == s
  {}

  /** The smallest unfinished unit can always move. */
  lemma {:induction false} SmallestMoves(c: Config, s: State, u: nat)
    requires Ready(c) && Inv(c, s) && u < NumUnits(c.job)
    requires !UnitFinished(c, s, u) && forall v: nat | v < u :: UnitFinished(c, s, v)
    ensures Moves(c, s, u)
  {
    assert UnitOk(c, s, u);
    StartsInRange(c.job, u + 1);
    var t := s.units[u];
    if t.phase.Waiting? {
      SpinsWaitBackwards(c, s, u);
      var w := LastWrite(c.job.ops, c.job.ops[t.pc].key, t.pc);
      hide Inv, PlanOk, HandOff, UnitOk, SerialRun, Target;
      assert c.job.ops[w].unit < u ==> UnitFinished(c, s, c.job.ops[w].unit);
      assert Done(c, s, w);
    }
  }

  // -------------------------------------------------------------------- the measure

  /** The steps an access takes at most: select, wait, one per word, finish. */
  function Cost(c: Config, g: nat): nat
    requires g < |c.job.ops|
  {
    WidthOf(c.job, c.job.ops[g].key) + 3
  }

  function CostUpto(c: Config, n: nat): nat
    requires n <= |c.job.ops|
  {
    if n == 0 then 0 else CostUpto(c, n - 1) + Cost(c, n - 1)
  }

  lemma {:induction false} CostMonotone(c: Config, m: nat, n: nat)
    requires m <= n <= |c.job.ops|
    ensures CostUpto(c, m) <= CostUpto(c, n)
    ensures m < n ==> CostUpto(c, m) + Cost(c, m) <= CostUpto(c, n)
    decreases n - m
  {
    if m < n { CostMonotone(c, m + 1, n); }
  }

  function Spent(phase: Phase): nat {
    match phase
    case Idle => 0
    case Waiting(_) => 1
    case Loading(_, got) => 2 + |got|
    case Storing(_, stored) => 2 + stored
  }

  predicate InRange(c: Config, s: State, u: nat) {
    && |c.job.start| == |s.units| + 1 && u < |s.units|
    && s.units[u].pc <= |c.job.ops| && c.job.start[u + 1] <= |c.job.ops|
  }

  /** Steps left to unit u. */
  function Left(c: Config, s: State, u: nat): int
    requires InRange(c, s, u)
  {
    CostUpto(c, c.job.start[u + 1]) - CostUpto(c, s.units[u].pc) - Spent(s.units[u].phase)
  }

  lemma {:induction false} LeftIsNatural(c: Config, s: State, u: nat)
    requires Ready(c) && Inv(c, s) && u < NumUnits(c.job)
    ensures InRange(c, s, u)
    ensures s.units[u].pc < c.job.start[u + 1] ==> Spent(s.units[u].phase) < Cost(c, s.units[u].pc)
    ensures Left(c, s, u) >= 0
  {
    assert UnitOk(c, s, u);
    StartsInRange(c.job, u + 1);
    hide Inv, PlanOk, HandOff, Target, SerialRun, SerialRead, SerialWrite;
    CostMonotone(c, s.units[u].pc, c.job.start[u + 1]);
  }

  function Sum(xs: seq<int>): int {
    if xs == [] then 0 else Sum(xs[..|xs| - 1]) + xs[|xs| - 1]
  }

  lemma {:induction false} SumIsNatural(xs: seq<int>)
    requires forall i | 0 <= i < |xs| :: xs[i] >= 0
    ensures Sum(xs) >= 0
  {
    if xs != [] { SumIsNatural(xs[..|xs| - 1]); }
  }

  lemma {:induction false} SumShrinks(xs: seq<int>, ys: seq<int>, u: nat)
    requires |xs| == |ys| && u < |xs| && ys[u] < xs[u]
    requires forall i | 0 <= i < |xs| && i != u :: ys[i] == xs[i]
    ensures Sum(ys) < Sum(xs)
  {
    var n := |xs| - 1;
    if u < n {
      SumShrinks(xs[..n], ys[..n], u);
    } else {
      assert xs[..n] == ys[..n];
    }
  }

  ghost predicate PcsInRange(c: Config, s: State) {
    forall u: nat | u < |s.units| :: InRange(c, s, u)
  }

  function Lefts(c: Config, s: State): (ls: seq<int>)
    requires PcsInRange(c, s)
    ensures |ls| == |s.units| && forall u: nat | u < |ls| :: ls[u] == Left(c, s, u)
  {
    seq(|s.units|, u requires 0 <= u < |s.units| => Left(c, s, u))
  }

  /** Steps left to all units together. */
  function TotalLeft(c: Config, s: State): int
    requires PcsInRange(c, s)
  {
    Sum(Lefts(c, s))
  }

  lemma {:induction false} TotalIsNatural(c: Config, s: State)
    requires Ready(c) && Inv(c, s)
    ensures PcsInRange(c, s) && TotalLeft(c, s) >= 0
  {
    forall u: nat | u < |s.units|
      ensures InRange(c, s, u) && Left(c, s, u) >= 0
    {
      LeftIsNatural(c, s, u);
    }
    SumIsNatural(Lefts(c, s));
  }

  /** A move of unit u takes at least one step off what is left to it. */
  lemma {:induction false} MoveShortens(c: Config, s: State, u: nat)
    requires |c.loc| == |c.job.ops| && |c.job.start| == |s.units| + 1 && u < |s.units|
    requires Moves(c, s, u) && Spent(s.units[u].phase) < Cost(c, s.units[u].pc)
    ensures InRange(c, Step(c, s, u), u)
    ensures Left(c, Step(c, s, u), u) < Left(c, s, u)
  {
    var g := s.units[u].pc;
    assert CostUpto(c, g + 1) == CostUpto(c, g) + Cost(c, g);
  }

  lemma {:induction false} OnlyOneShrinks(c: Config, s: State, s': State, u: nat)
    requires PcsInRange(c, s) && |s'.units| == |s.units| && u < |s.units|
    requires forall v: nat | v < |s.units| && v != u :: s'.units[v] == s.units[v]
    requires InRange(c, s', u) && Left(c, s', u) < Left(c, s, u)
    ensures PcsInRange(c, s') && TotalLeft(c, s') < TotalLeft(c, s)
  {
    forall v: nat | v < |s.units| && v != u ensures InRange(c, s', v) && Left(c, s', v) == Left(c, s, v) {
      assert InRange(c, s, v);
      assert s'.units[v] == s.units[v];
    }
    SumShrinks(Lefts(c, s), Lefts(c, s'), u);
  }

  lemma {:induction false} TotalShrinks(c: Config, s: State, u: nat)
    requires Ready(c) && Inv(c, s) && PcsInRange(c, s) && u < NumUnits(c.job) && Moves(c, s, u)
    ensures PcsInRange(c, Step(c, s, u)) && TotalLeft(c, Step(c, s, u)) < TotalLeft(c, s)
  {
    LeftIsNatural(c, s, u);
    MoveShortens(c, s, u);
    hide Ready, Inv;
    OnlyOneShrinks(c, s, Step(c, s, u), u);
  }
}
