/** How GAccO hands out units: a block that has become resident draws as many ids as it has threads,
    only so many blocks are resident at once, and a block leaves when all its units are finished. */
module LockTickets {
  import opened Execution
  import opened Locks
  import opened LockSafety
  import opened LockDevice
  import Machine

  datatype Grid = Grid(blockSize: nat, numBlocks: nat, resident: nat)

  /** How many blocks have drawn, and how many resident ones have yet to. */
  datatype World = World(exec: LockState, arrived: nat, drawn: nat)

  datatype Event = Arrive | Draw | Exec(unit: nat)

  predicate GridOk(p: Program, grid: Grid) {
    grid.blockSize > 0 && grid.resident > 0 && |p.token| <= grid.numBlocks * grid.blockSize
  }

  /** The launch configuration has a thread for every unit. */
  lemma LaunchCoversUnits(p: Program, blockSize: nat, resident: nat)
    requires blockSize > 0 && resident > 0
    ensures GridOk(p, Grid(blockSize, (|p.token| + blockSize - 1) / blockSize, resident))
  {
    var n := |p.token| + blockSize - 1;
    assert n == n / blockSize * blockSize + n % blockSize;
  }

  // ------------------------------------------------------------------ the rules

  ghost predicate Shaped(p: Program, s: LockState) {
    |p.start| == |p.token| + 1 && |s.threads| == |p.token|
  }

  ghost predicate UnitDone(p: Program, s: LockState, u: nat)
    requires Shaped(p, s) && u < |p.token|
  {
    s.threads[u].pc == p.start[u + 1]
  }

  /** All units of block b are finished. */
  ghost predicate Retired(p: Program, grid: Grid, s: LockState, b: nat)
    requires Shaped(p, s) && grid.blockSize > 0
  {
    forall u: nat | u < |p.token| && u / grid.blockSize == b :: UnitDone(p, s, u)
  }

  /** How many of the first n blocks are still resident. */
  ghost function NumActive(p: Program, grid: Grid, s: LockState, n: nat): nat
    requires Shaped(p, s) && grid.blockSize > 0
  {
    if n == 0 then 0 else NumActive(p, grid, s, n - 1) + (if Retired(p, grid, s, n - 1) then 0 else 1)
  }

  ghost predicate Enabled(p: Program, l: Lists, grid: Grid, w: World, e: Event)
    requires Shaped(p, w.exec) && grid.blockSize > 0
  {
    match e
    case Arrive =>
      && w.arrived + w.drawn < grid.numBlocks
      && w.arrived + NumActive(p, grid, w.exec, w.drawn) < grid.resident
    case Draw => w.arrived > 0
    case Exec(u) => u < |p.token| && u / grid.blockSize < w.drawn && LockMoves(p, l, w.exec, u)
  }

  ghost function Next(p: Program, l: Lists, grid: Grid, w: World, e: Event): World
    requires Shaped(p, w.exec) && grid.blockSize > 0 && Enabled(p, l, grid, w, e)
  {
    match e
    case Arrive => w.(arrived := w.arrived + 1)
    case Draw => World(w.exec, w.arrived - 1, w.drawn + 1)
    case Exec(u) => w.(exec := LockStep(p, l, w.exec, u))
  }

  ghost predicate WorldInv(p: Program, l: Lists, grid: Grid, rows: map<Key, Row>, w: World)
    requires WellFormedProgram(p)
  {
    LockInv(p, l, rows, w.exec, |p.token|) && w.arrived + w.drawn <= grid.numBlocks
  }

  // ------------------------------------------------------------------ deadlock freedom

  lemma {:induction false} FirstUnfinished(p: Program, s: LockState, n: nat) returns (u: nat)
    requires Shaped(p, s) && 0 < n <= |p.token| && !UnitDone(p, s, n - 1)
    ensures u < n && !UnitDone(p, s, u) && forall v: nat | v < u :: UnitDone(p, s, v)
  {
    if v: nat :| v < n - 1 && !UnitDone(p, s, v) { u := FirstUnfinished(p, s, v + 1); } else { u := n - 1; }
  }

  lemma {:induction false} NoneActive(p: Program, grid: Grid, s: LockState, n: nat)
    requires Shaped(p, s) && grid.blockSize > 0 && forall b: nat | b < n :: Retired(p, grid, s, b)
    ensures NumActive(p, grid, s, n) == 0
    decreases n
  {
    hide Retired;
    if n > 0 { NoneActive(p, grid, s, n - 1); }
  }

  lemma SmallerQuotient(u: nat, v: nat, k: nat)
    requires k > 0 && u / k < v / k
    ensures u < v
  {
    Machine.InWholes(u, k);
    Machine.InWholes(v, k);
    Multiples(u / k, v / k, k);
  }

  lemma QuotientBelow(u: nat, k: nat, n: nat)
    requires k > 0 && u < n * k
    ensures u / k < n
  {
    var b := u / k;
    Machine.InWholes(u, k);
    if n < b { Multiples(n, b, k); }
  }

  lemma Multiples(a: nat, b: nat, k: nat)
    requires a < b
    ensures a * k + k <= b * k
  {
    assert b * k == a * k + k + (b - a - 1) * k;
    assert (b - a - 1) * k >= 0;
  }

  /** Whatever blocks are resident and whatever locks are held, something can always happen in an
      unfinished epoch. */
  lemma {:induction false} SomethingMoves(p: Program, l: Lists, grid: Grid, rows: map<Key, Row>, w: World)
    returns (e: Event)
    requires LocksReady(p, l, |p.token|) && GridOk(p, grid) && WorldInv(p, l, grid, rows, w) && !LockFinished(p, w.exec)
    ensures Enabled(p, l, grid, w, e)
  {
    var v: nat :| v < |p.token| && w.exec.threads[v].pc != p.start[v + 1];
    assert !UnitDone(p, w.exec, v);
    var u := FirstUnfinished(p, w.exec, v + 1);
    assert ThreadOk(p, l, rows, w.exec, u);
    forall x: nat | x < u ensures w.exec.threads[x].pc == p.start[x + 1] { assert UnitDone(p, w.exec, x); }
    SmallestTakesLock(p, l, rows, w.exec, |p.token|, u);
    hide LocksReady, LockInv, ThreadOk, LockMoves;
    QuotientBelow(u, grid.blockSize, grid.numBlocks);
    if u / grid.blockSize < w.drawn {
      e := Exec(u);
    } else if w.arrived > 0 {
      e := Draw;
    } else {
      AllRetired(p, grid, w.exec, w.drawn, u);
      e := Arrive;
    }
  }

  /** If unit u is the smallest unfinished one, the blocks before its own are gone. */
  lemma {:induction false} AllRetired(p: Program, grid: Grid, s: LockState, n: nat, u: nat)
    requires Shaped(p, s) && grid.blockSize > 0 && u < |p.token| && n <= u / grid.blockSize
    requires forall v: nat | v < u :: UnitDone(p, s, v)
    ensures NumActive(p, grid, s, n) == 0
  {
    forall b: nat | b < n ensures Retired(p, grid, s, b) {
      forall x: nat | x < |p.token| && x / grid.blockSize == b ensures UnitDone(p, s, x) {
        SmallerQuotient(x, u, grid.blockSize);
      }
    }
    NoneActive(p, grid, s, n);
  }

  // ------------------------------------------------------------------ termination

  /** Arrivals and draws left, and steps left to all units. */
  function Measure(p: Program, grid: Grid, w: World): int
    requires |p.start| == |p.token| + 1 && |w.exec.threads| == |p.token|
  {
    2 * (grid.numBlocks - w.drawn) - w.arrived + StepsLeft(p, w.exec)
  }

  lemma {:induction false} NextKeepsInv(p: Program, l: Lists, grid: Grid, rows: map<Key, Row>, w: World, e: Event)
    requires LocksReady(p, l, |p.token|) && GridOk(p, grid) && WorldInv(p, l, grid, rows, w)
             && Enabled(p, l, grid, w, e)
    ensures WorldInv(p, l, grid, rows, Next(p, l, grid, w, e))
    ensures Measure(p, grid, Next(p, l, grid, w, e)) < Measure(p, grid, w)
  {
    if e.Exec? {
      assert ThreadOk(p, l, rows, w.exec, e.unit);
      hide LockInv, LocksReady, StepsLeft;
      LockStepKeepsInv(p, l, rows, w.exec, |p.token|, e.unit);
      StepsLeftShrink(p, l, w.exec, e.unit);
    }
  }

  /** A run of the kernel: every event was possible when it happened. */
  ghost predicate KernelRun(p: Program, l: Lists, grid: Grid, rows: map<Key, Row>, trace: seq<World>,
                            events: seq<Event>)
    requires |p.start| == |p.token| + 1 && grid.blockSize > 0
  {
    && |trace| == |events| + 1
    && trace[0] == World(LockInitial(p, rows), 0, 0)
    && forall i | 0 <= i < |events| ::
         && |trace[i].exec.threads| == |p.token|
         && Enabled(p, l, grid, trace[i], events[i])
         && trace[i + 1] == Next(p, l, grid, trace[i], events[i])
  }

  lemma {:induction false} KernelRunInv(p: Program, l: Lists, grid: Grid, rows: map<Key, Row>, trace: seq<World>,
                                        events: seq<Event>, n: nat)
    requires LocksReady(p, l, |p.token|) && GridOk(p, grid) && KernelRun(p, l, grid, rows, trace, events)
             && n <= |events|
    ensures WorldInv(p, l, grid, rows, trace[n]) && WorldInv(p, l, grid, rows, trace[0])
    ensures Measure(p, grid, trace[n]) + n <= Measure(p, grid, trace[0])
  {
    if n == 0 {
      LockInitialInv(p, l, rows, |p.token|);
    } else {
      hide LockInv, LocksReady, StepsLeft;
      KernelRunInv(p, l, grid, rows, trace, events, n - 1);
      NextKeepsInv(p, l, grid, rows, trace[n - 1], events[n - 1]);
    }
  }

  /** Every run of the kernel ends, whatever the order of arrivals, draws and steps; and where nothing can
      happen any more, all units are finished and the rows are those of the serial run. */
  lemma {:induction false} KernelEndsSerially(p: Program, l: Lists, grid: Grid, rows: map<Key, Row>, trace: seq<World>,
                                              events: seq<Event>)
    requires LocksReady(p, l, |p.token|) && GridOk(p, grid) && KernelRun(p, l, grid, rows, trace, events)
    ensures |trace[0].exec.threads| == |p.token| == |trace[|events|].exec.threads|
            && |events| <= Measure(p, grid, trace[0])
    ensures (forall e :: !Enabled(p, l, grid, trace[|events|], e)) ==>
              && LockFinished(p, trace[|events|].exec)
              && forall k: Key :: trace[|events|].exec.data.RowOf(k) == SerialData(p, rows, |p.acts|).RowOf(k)
  {
    var w := trace[|events|];
    KernelRunInv(p, l, grid, rows, trace, events, |events|);
    StepsLeftIsNatural(p, l, rows, w.exec, |p.token|);
    if LockFinished(p, w.exec) {
      hide LockInv, LocksReady;
      MoveUntilFinished(p, l, rows, w.exec);
    } else {
      var e := SomethingMoves(p, l, grid, rows, w);
    }
  }
}
