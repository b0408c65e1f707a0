/** How units are handed out.  On the GPU a block that has become resident draws as many tickets as
    it has warps, and each of its warps then takes one of them; only so many blocks are resident
    at once, and a block leaves when its units are finished.  On the CPU thread t runs
    units t, t + T, t + 2T, ... in turn. */
module Tickets {
  import opened Accesses
  import opened Execution
  import opened SerialEquivalence
  import opened Progress
  import Machine

  datatype Grid = Grid(numWarps: nat, numBlocks: nat, resident: nat)

  datatype Block = Block(base: nat, taken: nat)

  /** The blocks that have drawn, in that order, and how many resident ones have yet to. */
  datatype World = World(exec: State, counter: nat, arrived: nat, blocks: seq<Block>)

  datatype Event = Arrive | Draw | Take(block: nat) | Exec(unit: nat)

  ghost predicate GridOk(c: Config, grid: Grid)
    requires |c.job.start| > 0
  {
    && grid.numWarps > 0 && grid.resident > 0
    && NumUnits(c.job) <= grid.numBlocks * grid.numWarps
  }

  /** The launch configuration has a warp for every unit. */
  lemma LaunchCoversUnits(units: nat, numWarps: nat)
    requires numWarps > 0
    ensures var blockSize := numWarps * 32;
            units <= (units * 32 + blockSize - 1) / blockSize * numWarps
  {
    var blockSize := numWarps * 32;
    var q := (units * 32 + blockSize - 1) / blockSize;
    assert units * 32 <= q * blockSize;
    assert q * blockSize == q * numWarps * 32;
  }

  // ----------------------------------------------------------------------- the rules

  ghost predicate Retired(c: Config, grid: Grid, s: State, b: Block)
    requires |c.job.start| == |s.units| + 1
  {
    && b.taken == grid.numWarps
    && forall u: nat | b.base <= u < b.base + grid.numWarps && u < |s.units| :: UnitFinished(c, s, u)
  }

  ghost function NumActive(c: Config, grid: Grid, s: State, blocks: seq<Block>): nat
    requires |c.job.start| == |s.units| + 1
  {
    if blocks == [] then 0
    else NumActive(c, grid, s, blocks[..|blocks| - 1]) + (if Retired(c, grid, s, blocks[|blocks| - 1]) then 0 else 1)
  }

  ghost predicate Started(w: World, u: nat) {
    exists b :: b in w.blocks && b.base <= u < b.base + b.taken
  }

  ghost predicate Enabled(c: Config, grid: Grid, w: World, e: Event)
    requires |c.job.start| == |w.exec.units| + 1
  {
    match e
    case Arrive =>
      && w.arrived + |w.blocks| < grid.numBlocks
      && w.arrived + NumActive(c, grid, w.exec, w.blocks) < grid.resident
    case Draw => w.arrived > 0
    case Take(b) => b < |w.blocks| && w.blocks[b].taken < grid.numWarps
    case Exec(u) => u < |w.exec.units| && Started(w, u) && Moves(c, w.exec, u)
  }

  ghost function Next(c: Config, grid: Grid, w: World, e: Event): World
    requires |c.loc| == |c.job.ops| && |c.job.start| == |w.exec.units| + 1
    requires Enabled(c, grid, w, e)
  {
    match e
    case Arrive => w.(arrived := w.arrived + 1)
    case Draw =>
      World(w.exec, w.counter + grid.numWarps, w.arrived - 1, w.blocks + [Block(w.counter, 0)])
    case Take(b) => w.(blocks := w.blocks[b := w.blocks[b].(taken := w.blocks[b].taken + 1)])
    case Exec(u) => w.(exec := Step(c, w.exec, u))
  }

  // ------------------------------------------------------------------- the invariant

  ghost predicate BlocksOk(grid: Grid, w: World) {
    && w.counter == |w.blocks| * grid.numWarps
    && w.arrived + |w.blocks| <= grid.numBlocks
    && forall i | 0 <= i < |w.blocks| :: w.blocks[i].base == i * grid.numWarps && w.blocks[i].taken <= grid.numWarps
  }

  ghost predicate WorldInv(c: Config, grid: Grid, w: World)
    requires Ready(c)
  {
    Inv(c, w.exec) && PcsInRange(c, w.exec) && BlocksOk(grid, w)
  }

  lemma {:induction false} NextKeepsInv(c: Config, grid: Grid, w: World, e: Event)
    requires Ready(c) && WorldInv(c, grid, w) && Enabled(c, grid, w, e)
    ensures WorldInv(c, grid, Next(c, grid, w, e))
  {
    if e.Exec? {
      StepKeepsInv(c, w.exec, e.unit);
      TotalIsNatural(c, Step(c, w.exec, e.unit));
    }
  }

  // ---------------------------------------------------------------------- deadlock freedom

  lemma {:induction false} SmallestUnfinished(c: Config, s: State, n: nat) returns (u: nat)
    requires |c.job.start| == |s.units| + 1 && n <= |s.units|
    requires exists v: nat :: v < n && !UnitFinished(c, s, v)
    ensures u < n && !UnitFinished(c, s, u) && forall v: nat | v < u :: UnitFinished(c, s, v)
  {
    if v: nat :| v < n - 1 && !UnitFinished(c, s, v) {
      u := SmallestUnfinished(c, s, n - 1);
    } else {
      u := n - 1;
    }
  }

  /** The tickets handed out so far belong to the blocks that have drawn. */
  lemma {:induction false} BlockOf(grid: Grid, w: World, u: nat) returns (b: nat)
    requires BlocksOk(grid, w) && u < w.counter && grid.numWarps > 0
    ensures b < |w.blocks| && w.blocks[b].base <= u < w.blocks[b].base + grid.numWarps
  {
    b := u / grid.numWarps;
    Machine.InWholes(u, grid.numWarps);
    FewerTimes(b, |w.blocks|, grid.numWarps);
    assert w.blocks[b].base == b * grid.numWarps;
  }

  lemma {:induction false} FewerTimes(m: nat, n: nat, k: nat)
    requires m * k < n * k
    ensures m < n
  {
    assert m >= n ==> (m - n) * k >= 0;
    assert m * k == n * k + (m - n) * k;
  }

  lemma {:induction false} AllRetired(c: Config, grid: Grid, s: State, blocks: seq<Block>)
    requires |c.job.start| == |s.units| + 1
    requires forall b | b in blocks :: Retired(c, grid, s, b)
    ensures NumActive(c, grid, s, blocks) == 0
  {
    if blocks != [] {
      AllRetired(c, grid, s, blocks[..|blocks| - 1]);
    }
  }

  /** In an unfinished epoch something can always happen that changes the state: a block can become
      resident or draw its tickets, a warp can take its ticket, or a started unit can move. */
  lemma {:induction false} SomethingMoves(c: Config, grid: Grid, w: World) returns (e: Event)
    requires Ready(c) && GridOk(c, grid) && WorldInv(c, grid, w) && !Finished(c, w.exec)
    ensures Enabled(c, grid, w, e)
  {
    var v: nat :| v < |w.exec.units| && w.exec.units[v].pc != c.job.start[v + 1];
    assert !UnitFinished(c, w.exec, v);
    var u := SmallestUnfinished(c, w.exec, |w.exec.units|);
    SmallestMoves(c, w.exec, u);
    hide Inv, Ready, WellFormed, PlanOk, HandOff;
    if u < w.counter {
      var b := BlockOf(grid, w, u);
      if u < w.blocks[b].base + w.blocks[b].taken {
        assert w.blocks[b] in w.blocks;
        e := Exec(u);
      } else {
        e := Take(b);
      }
    } else if w.arrived > 0 {
      e := Draw;
    } else if b: nat :| b < |w.blocks| && w.blocks[b].taken < grid.numWarps {
      e := Take(b);
    } else {
      forall b | b in w.blocks ensures Retired(c, grid, w.exec, b) {
        var i :| 0 <= i < |w.blocks| && w.blocks[i] == b;
        BlockBelowCounter(grid, w, i);
      }
      AllRetired(c, grid, w.exec, w.blocks);
      FewerTimes(|w.blocks|, grid.numBlocks, grid.numWarps);
      e := Arrive;
    }
  }

  lemma {:induction false} BlockBelowCounter(grid: Grid, w: World, i: nat)
    requires BlocksOk(grid, w) && i < |w.blocks|
    ensures w.blocks[i].base + grid.numWarps <= w.counter
  {
    assert (i + 1) * grid.numWarps <= |w.blocks| * grid.numWarps;
  }

  // ------------------------------------------------------------------------ termination

  function Untaken(grid: Grid, blocks: seq<Block>): (xs: seq<int>)
    ensures |xs| == |blocks| && forall i | 0 <= i < |xs| :: xs[i] == grid.numWarps - blocks[i].taken
  {
    seq(|blocks|, i requires 0 <= i < |blocks| => grid.numWarps - blocks[i].taken)
  }

  /** Arrivals, draws and tickets left. */
  function TicketsLeft(grid: Grid, arrived: nat, blocks: seq<Block>): int {
    (grid.numBlocks - |blocks|) * (grid.numWarps + 2) - arrived + Sum(Untaken(grid, blocks))
  }

  /** Arrivals and draws left, tickets left to take, and steps left. */
  function Measure(c: Config, grid: Grid, w: World): int
    requires PcsInRange(c, w.exec)
  {
    TicketsLeft(grid, w.arrived, w.blocks) + TotalLeft(c, w.exec)
  }

  lemma TimesAtLeast(n: nat, k: nat)
    requires k > 0
    ensures n <= n * k
  {}

  lemma {:induction false} TicketsAreNatural(grid: Grid, w: World)
    requires BlocksOk(grid, w)
    ensures TicketsLeft(grid, w.arrived, w.blocks) >= 0
  {
    SumIsNatural(Untaken(grid, w.blocks));
    TimesAtLeast(grid.numBlocks - |w.blocks|, grid.numWarps + 2);
  }

  lemma {:induction false} MeasureIsNatural(c: Config, grid: Grid, w: World)
    requires Ready(c) && WorldInv(c, grid, w)
    ensures Measure(c, grid, w) >= 0
  {
    TotalIsNatural(c, w.exec);
    TicketsAreNatural(grid, w);
    hide Inv, Ready, TicketsLeft, TotalLeft;
  }

  lemma ArriveShrinks(grid: Grid, arrived: nat, blocks: seq<Block>)
    ensures TicketsLeft(grid, arrived + 1, blocks) < TicketsLeft(grid, arrived, blocks)
  {
    hide Untaken;
  }

  lemma {:induction false} DrawShrinks(grid: Grid, arrived: nat, blocks: seq<Block>, b: Block)
    requires b.taken == 0 && arrived > 0
    ensures TicketsLeft(grid, arrived - 1, blocks + [b]) < TicketsLeft(grid, arrived, blocks)
  {
    var xs := Untaken(grid, blocks + [b]);
    assert xs[..|xs| - 1] == Untaken(grid, blocks);
    var n, k := grid.numBlocks - |blocks|, grid.numWarps + 2;
    assert (n - 1) * k == n * k - k;
  }

  lemma {:induction false} TakeShrinks(grid: Grid, arrived: nat, blocks: seq<Block>, i: nat)
    requires i < |blocks|
    ensures TicketsLeft(grid, arrived, blocks[i := blocks[i].(taken := blocks[i].taken + 1)]) <
            TicketsLeft(grid, arrived, blocks)
  {
    SumShrinks(Untaken(grid, blocks), Untaken(grid, blocks[i := blocks[i].(taken := blocks[i].taken + 1)]), i);
  }

  lemma {:induction false} MeasureShrinks(c: Config, grid: Grid, w: World, e: Event)
    requires Ready(c) && WorldInv(c, grid, w) && Enabled(c, grid, w, e)
    requires PcsInRange(c, Next(c, grid, w, e).exec)
    ensures Measure(c, grid, Next(c, grid, w, e)) < Measure(c, grid, w)
  {
    hide Ready, BlocksOk, Moves, NumActive, TicketsLeft, TotalLeft, PcsInRange, Step;
    match e
    case Arrive => ArriveShrinks(grid, w.arrived, w.blocks);
    case Draw => DrawShrinks(grid, w.arrived, w.blocks, Block(w.counter, 0));
    case Take(b) => TakeShrinks(grid, w.arrived, w.blocks, b);
    case Exec(u) => TotalShrinks(c, w.exec, u);
  }

  /** A run of the kernel: every event was possible when it happened. */
  ghost predicate KernelRun(c: Config, grid: Grid, trace: seq<World>, events: seq<Event>)
    requires Ready(c)
  {
    && |trace| == |events| + 1
    && trace[0] == World(Initial(c), 0, 0, [])
    && forall i | 0 <= i < |events| ::
         && |trace[i].exec.units| == NumUnits(c.job)
         && Enabled(c, grid, trace[i], events[i])
         && trace[i + 1] == Next(c, grid, trace[i], events[i])
  }

  lemma {:induction false} KernelRunInv(c: Config, grid: Grid, trace: seq<World>, events: seq<Event>, n: nat)
    requires Ready(c) && GridOk(c, grid) && KernelRun(c, grid, trace, events) && n <= |events|
    ensures WorldInv(c, grid, trace[n]) && WorldInv(c, grid, trace[0])
    ensures Measure(c, grid, trace[n]) + n <= Measure(c, grid, trace[0])
  {
    hide Ready, GridOk, WorldInv, Enabled, Next, KernelRun, PcsInRange;
    KernelShape(c, grid, trace, events);
    if n == 0 {
      KernelBegins(c, grid, trace, events);
    } else {
      KernelRunInv(c, grid, trace, events, n - 1);
      KernelStep(c, grid, trace, events, n - 1);
      InvInRange(c, grid, trace[n - 1]);
      NextKeepsInv(c, grid, trace[n - 1], events[n - 1]);
      InvInRange(c, grid, trace[n]);
      MeasureShrinks(c, grid, trace[n - 1], events[n - 1]);
    }
  }

  lemma KernelShape(c: Config, grid: Grid, trace: seq<World>, events: seq<Event>)
    requires Ready(c) && KernelRun(c, grid, trace, events)
    ensures |trace| == |events| + 1 && |c.loc| == |c.job.ops| && |c.job.start| > 0
  {}

  lemma KernelBegins(c: Config, grid: Grid, trace: seq<World>, events: seq<Event>)
    requires Ready(c) && KernelRun(c, grid, trace, events)
    ensures |trace| > 0 && WorldInv(c, grid, trace[0]) && PcsInRange(c, trace[0].exec)
  {
    InitialInv(c);
    TotalIsNatural(c, Initial(c));
  }

  lemma KernelStep(c: Config, grid: Grid, trace: seq<World>, events: seq<Event>, n: nat)
    requires Ready(c) && KernelRun(c, grid, trace, events) && n < |events|
    ensures |trace| == |events| + 1 && |trace[n].exec.units| == NumUnits(c.job)
    ensures |c.loc| == |c.job.ops| && |c.job.start| == |trace[n].exec.units| + 1
    ensures Enabled(c, grid, trace[n], events[n]) && trace[n + 1] == Next(c, grid, trace[n], events[n])
  {
    hide Enabled, Next;
  }

  lemma InvInRange(c: Config, grid: Grid, w: World)
    requires Ready(c) && WorldInv(c, grid, w)
    ensures PcsInRange(c, w.exec)
  {
    hide Ready, Inv, BlocksOk;
  }

  /** Every run of the kernel ends, whatever the order of arrivals, draws, tickets and steps; and where
      nothing can happen any more, all units are finished and memory holds the serial result. */
  lemma {:induction false} KernelEndsSerially(c: Config, grid: Grid, trace: seq<World>, events: seq<Event>)
    requires Ready(c) && GridOk(c, grid) && KernelRun(c, grid, trace, events)
    ensures PcsInRange(c, trace[0].exec) && |events| <= Measure(c, grid, trace[0])
    ensures |trace[|events|].exec.units| == NumUnits(c.job)
    ensures (forall e :: !Enabled(c, grid, trace[|events|], e)) ==>
              && Finished(c, trace[|events|].exec)
              && HandOff(trace[|events|].exec.mem, c.epoch + 1)
              && forall k :: Contents(trace[|events|].exec.mem, c.job.width)(k) == SerialResult(c.job, Db(c))(k)
  {
    var w := trace[|events|];
    KernelRunInv(c, grid, trace, events, |events|);
    MeasureIsNatural(c, grid, w);
    if !Finished(c, w.exec) {
      var e := SomethingMoves(c, grid, w);
    } else {
      FinalHandOff(c, w.exec);
      forall k ensures Contents(w.exec.mem, c.job.width)(k) == SerialResult(c.job, Db(c))(k) {
        FinalContents(c, w.exec, k);
      }
    }
  }

  // --------------------------------------------------------------------- strided workers

  /** Thread u mod T has come to unit u. */
  ghost predicate ThreadIsAt(c: Config, s: State, threads: nat, u: nat)
    requires |c.job.start| == |s.units| + 1 && u < |s.units|
  {
    u < threads || UnitFinished(c, s, u - threads)
  }

  /** With any number of strided threads, some thread is at a unit that can move. */
  lemma {:induction false} StridedProgress(c: Config, s: State, threads: nat) returns (u: nat)
    requires Ready(c) && Inv(c, s) && threads > 0 && !Finished(c, s)
    ensures u < |s.units| && ThreadIsAt(c, s, threads, u) && Moves(c, s, u)
  {
    var v: nat :| v < |s.units| && s.units[v].pc != c.job.start[v + 1];
    assert !UnitFinished(c, s, v);
    u := SmallestUnfinished(c, s, |s.units|);
    SmallestMoves(c, s, u);
  }

  ghost predicate IsSchedule(c: Config, schedule: seq<nat>)
    requires |c.job.start| > 0
  {
    forall i | 0 <= i < |schedule| :: schedule[i] < NumUnits(c.job)
  }

  lemma {:induction false} OneStepNearer(c: Config, schedule: seq<nat>, u: nat)
    requires Ready(c) && IsSchedule(c, schedule) && u < NumUnits(c.job) && Moves(c, Run(c, schedule), u)
    requires PcsInRange(c, Run(c, schedule))
    ensures PcsInRange(c, Run(c, schedule + [u]))
    ensures 0 <= TotalLeft(c, Run(c, schedule + [u])) < TotalLeft(c, Run(c, schedule))
  {
    RunKeepsInv(c, schedule);
    RunKeepsInv(c, schedule + [u]);
    hide Inv, Ready, TotalLeft, PcsInRange, Moves, Step;
    TotalShrinks(c, Run(c, schedule), u);
    TotalIsNatural(c, Run(c, schedule + [u]));
    assert (schedule + [u])[..|schedule|] == schedule;
  }

  /** A run of the strided threads: every step is of a unit that its thread has come to, and is not
      a spin. */
  ghost predicate StridedRun(c: Config, threads: nat, schedule: seq<nat>)
    requires Ready(c)
  {
    && IsSchedule(c, schedule)
    && forall n: nat | n < |schedule| :: StridedStep(c, Run(c, schedule[..n]), threads, schedule[n])
  }

  ghost predicate StridedStep(c: Config, s: State, threads: nat, u: nat)
    requires |c.job.start| == |s.units| + 1 && u < |s.units|
  {
    ThreadIsAt(c, s, threads, u) && Moves(c, s, u)
  }

  lemma {:induction false} InRangeAlways(c: Config, schedule: seq<nat>)
    requires Ready(c) && IsSchedule(c, schedule)
    ensures PcsInRange(c, Run(c, schedule)) && TotalLeft(c, Run(c, schedule)) >= 0
  {
    RunKeepsInv(c, schedule);
    TotalIsNatural(c, Run(c, schedule));
  }

  lemma StridedShape(c: Config, threads: nat, schedule: seq<nat>)
    requires Ready(c) && StridedRun(c, threads, schedule)
    ensures |c.loc| == |c.job.ops| && |c.job.start| > 0 && IsSchedule(c, schedule)
  {}

  lemma {:induction false} StridedRunShrinks(c: Config, threads: nat, schedule: seq<nat>, n: nat)
    requires Ready(c) && StridedRun(c, threads, schedule) && n <= |schedule|
    ensures PcsInRange(c, Run(c, [])) && PcsInRange(c, Run(c, schedule[..n]))
    ensures TotalLeft(c, Run(c, schedule[..n])) + n <= TotalLeft(c, Run(c, []))
    decreases n
  {
    hide Ready, TotalLeft, PcsInRange, Run, StridedRun;
    StridedShape(c, threads, schedule);
    if n == 0 {
      InRangeAlways(c, []);
      assert schedule[..0] == [];
    } else {
      StridedRunShrinks(c, threads, schedule, n - 1);
      LongerStridedRun(c, threads, schedule, n - 1);
    }
  }

  lemma {:induction false} LongerStridedRun(c: Config, threads: nat, schedule: seq<nat>, n: nat)
    requires Ready(c) && StridedRun(c, threads, schedule) && n < |schedule| && PcsInRange(c, Run(c, schedule[..n]))
    ensures PcsInRange(c, Run(c, schedule[..n + 1]))
    ensures TotalLeft(c, Run(c, schedule[..n + 1])) < TotalLeft(c, Run(c, schedule[..n]))
  {
    StridedAt(c, threads, schedule, n);
    RunKeepsInv(c, schedule[..n]);
    NextOfRun(c, schedule, n);
    hide Inv, Ready, TotalLeft, PcsInRange, Moves, Step, Run, StridedRun;
    TotalShrinks(c, Run(c, schedule[..n]), schedule[n]);
  }

  lemma {:induction false} NextOfRun(c: Config, schedule: seq<nat>, n: nat)
    requires |c.loc| == |c.job.ops| && |c.job.start| > 0 && IsSchedule(c, schedule) && n < |schedule|
    ensures IsSchedule(c, schedule[..n]) && IsSchedule(c, schedule[..n + 1])
    ensures Run(c, schedule[..n + 1]) == Step(c, Run(c, schedule[..n]), schedule[n])
  {
    hide Step;
    assert schedule[..n + 1][..n] == schedule[..n];
  }

  lemma {:induction false} StridedAt(c: Config, threads: nat, schedule: seq<nat>, n: nat)
    requires Ready(c) && StridedRun(c, threads, schedule) && n < |schedule|
    ensures IsSchedule(c, schedule[..n]) && schedule[n] < NumUnits(c.job)
            && Moves(c, Run(c, schedule[..n]), schedule[n])
  {
    hide Run, Moves, ReadsFollowWrites, LastWritesGoToB, SlotsDistinct, HandOff;
    assert StridedStep(c, Run(c, schedule[..n]), threads, schedule[n]);
  }

  /** Every run of the strided threads ends, and where no thread can do anything but spin, all units
      are finished and memory holds the serial result. */
  lemma {:induction false} StridedEndsSerially(c: Config, threads: nat, schedule: seq<nat>)
    requires Ready(c) && threads > 0 && StridedRun(c, threads, schedule)
    ensures PcsInRange(c, Initial(c)) && |schedule| <= TotalLeft(c, Initial(c))
    ensures (forall u: nat | u < NumUnits(c.job) :: !StridedStep(c, Run(c, schedule), threads, u)) ==>
              && Finished(c, Run(c, schedule))
              && HandOff(Run(c, schedule).mem, c.epoch + 1)
              && forall k :: Contents(Run(c, schedule).mem, c.job.width)(k) == SerialResult(c.job, Db(c))(k)
  {
    assert schedule[..|schedule|] == schedule;
    StridedRunShrinks(c, threads, schedule, |schedule|);
    InRangeAlways(c, schedule);
    assert Run(c, []) == Initial(c);
    hide StridedRun, StridedStep, TotalLeft, PcsInRange;
    if forall u: nat | u < NumUnits(c.job) :: !StridedStep(c, Run(c, schedule), threads, u) {
      StridedResult(c, threads, schedule);
    }
  }

  lemma {:induction false} StridedResult(c: Config, threads: nat, schedule: seq<nat>)
    requires Ready(c) && threads > 0 && IsSchedule(c, schedule)
    requires forall u: nat | u < NumUnits(c.job) :: !StridedStep(c, Run(c, schedule), threads, u)
    ensures Finished(c, Run(c, schedule))
    ensures HandOff(Run(c, schedule).mem, c.epoch + 1)
    ensures forall k :: Contents(Run(c, schedule).mem, c.job.width)(k) == SerialResult(c.job, Db(c))(k)
  {
    if !Finished(c, Run(c, schedule)) {
      RunKeepsInv(c, schedule);
      var u := StridedProgress(c, Run(c, schedule), threads);
      assert StridedStep(c, Run(c, schedule), threads, u);
    } else {
      EpochIsSerial(c, schedule);
    }
  }
}
