/** The CPU form of the storage protocol chooses its cells and waits exactly as the GPU form does,
    but the copy of a row into a version slot is disabled: only the slot's tag is stored. */
module CpuStorage {
  import opened Accesses
  import opened Execution
  import opened SerialEquivalence
  import opened Progress
  import opened Tickets

  /** Unit u is about to copy a word into a version slot. */
  predicate CopiesToSlot(c: Config, s: State, u: nat)
    requires |c.loc| == |c.job.ops| && |c.job.start| == |s.units| + 1 && u < |s.units|
  {
    var t := s.units[u];
    && t.pc < c.job.start[u + 1] && t.pc < |c.job.ops|
    && t.phase.Storing? && t.phase.cell.VersionCell? && t.phase.stored < WidthOf(c.job, c.job.ops[t.pc].key)
  }

  function CpuStep(c: Config, s: State, u: nat): State
    requires |c.loc| == |c.job.ops| && |c.job.start| == |s.units| + 1 && u < |s.units|
  {
    if CopiesToSlot(c, s, u) then
      var t := s.units[u];
      s.(units := s.units[u := t.(phase := Storing(t.phase.cell, t.phase.stored + 1))])
    else Step(c, s, u)
  }

  function CpuRun(c: Config, schedule: seq<nat>): (s: State)
    requires |c.loc| == |c.job.ops| && |c.job.start| > 0
    requires forall i | 0 <= i < |schedule| :: schedule[i] < NumUnits(c.job)
    ensures |s.units| == NumUnits(c.job)
  {
    if schedule == [] then Initial(c)
    else CpuStep(c, CpuRun(c, schedule[..|schedule| - 1]), schedule[|schedule| - 1])
  }

  /** Access g reads a version slot, of a row that has any words. */
  ghost predicate SlotRead(c: Config, g: nat) {
    && g < |c.job.ops| && g < |c.loc| && !c.job.ops[g].write && c.loc[g].VersionSlot?
    && WidthOf(c.job, c.job.ops[g].key) > 0
  }

  ghost predicate NoSlotReads(c: Config) {
    forall g: nat :: !SlotRead(c, g)
  }

  // -------------------------------------------------------- without reads of version slots

  /** Words are loaded from records only. */
  ghost predicate LoadsRecords(c: Config, s: State) {
    forall u: nat | u < |s.units| && (s.units[u].phase.Waiting? || s.units[u].phase.Loading?)
           && s.units[u].phase.cell.VersionCell? ::
      s.units[u].pc < |c.job.ops| && WidthOf(c.job, c.job.ops[s.units[u].pc].key) == 0
  }

  /** The same units and tags, and the same words in the records. */
  ghost predicate Agree(s: State, s': State) {
    s.units == s'.units && s.mem.tags == s'.mem.tags && SameRecords(s.mem, s'.mem)
  }

  ghost predicate SameRecords(m: Memory, m': Memory) {
    forall cell: Cell, i: nat | cell.RecordCell? :: m.WordAt(cell, i) == m'.WordAt(cell, i)
  }

  lemma BothStore(m: Memory, m': Memory, cell: Cell, i: nat, w: Word)
    requires SameRecords(m, m')
    ensures SameRecords(m.SetWord(cell, i, w), m'.SetWord(cell, i, w))
    ensures cell.VersionCell? ==> SameRecords(m, m'.SetWord(cell, i, w))
  {
    forall other: Cell, n: nat | other.RecordCell?
      ensures m.SetWord(cell, i, w).WordAt(other, n) == m'.SetWord(cell, i, w).WordAt(other, n)
      ensures cell.VersionCell? ==> m.WordAt(other, n) == m'.SetWord(cell, i, w).WordAt(other, n)
    {
      assert m.WordAt(other, n) == m'.WordAt(other, n);
    }
  }

  lemma {:induction false} StepLoadsRecords(c: Config, s: State, u: nat)
    requires |c.loc| == |c.job.ops| && |c.job.start| == |s.units| + 1 && u < |s.units|
    requires NoSlotReads(c) && LoadsRecords(c, s)
    ensures LoadsRecords(c, Step(c, s, u))
  {
    assert !SlotRead(c, s.units[u].pc);
    hide NoSlotReads;
  }

  lemma {:induction false} StepsAgree(c: Config, s: State, s': State, u: nat)
    requires |c.loc| == |c.job.ops| && |c.job.start| == |s.units| + 1 && u < |s.units| && Agree(s, s')
             && LoadsRecords(c, s)
    ensures Agree(CpuStep(c, s, u), Step(c, s', u))
  {
    forall cell ensures s.mem.Tag(cell) == s'.mem.Tag(cell) {}
    var t := s.units[u];
    if t.phase.Storing? && t.pc < |c.job.ops| {
      BothStore(s.mem, s'.mem, t.phase.cell, t.phase.stored, c.job.lane(t.pc, t.seen, t.phase.stored));
    }
    TagsLeaveRecords(s.mem, s'.mem, t.phase, c.epoch);
    if !t.phase.Loading? { hide SameRecords; }
  }

  lemma TagsLeaveRecords(m: Memory, m': Memory, phase: Phase, tag: nat)
    requires SameRecords(m, m')
    ensures phase.Storing? ==> SameRecords(m.SetTag(phase.cell, tag), m'.SetTag(phase.cell, tag))
  {
    if phase.Storing? {
      forall other: Cell, n: nat | other.RecordCell?
        ensures m.SetTag(phase.cell, tag).WordAt(other, n) == m'.SetTag(phase.cell, tag).WordAt(other, n)
      {
        assert m.WordAt(other, n) == m'.WordAt(other, n);
      }
    }
  }

  lemma {:induction false} RunsAgree(c: Config, schedule: seq<nat>)
    requires |c.loc| == |c.job.ops| && |c.job.start| > 0 && IsSchedule(c, schedule) && NoSlotReads(c)
    ensures Agree(CpuRun(c, schedule), Run(c, schedule)) && LoadsRecords(c, CpuRun(c, schedule))
  {
    if schedule != [] {
      var before, u := schedule[..|schedule| - 1], schedule[|schedule| - 1];
      RunsAgree(c, before);
      hide NoSlotReads, LoadsRecords, Agree, CpuStep, Step;
      StepsAgree(c, CpuRun(c, before), Run(c, before), u);
      CpuStepLoadsRecords(c, CpuRun(c, before), u);
    }
  }

  lemma {:induction false} CpuStepLoadsRecords(c: Config, s: State, u: nat)
    requires |c.loc| == |c.job.ops| && |c.job.start| == |s.units| + 1 && u < |s.units|
    requires NoSlotReads(c) && LoadsRecords(c, s)
    ensures LoadsRecords(c, CpuStep(c, s, u))
  {
    if CopiesToSlot(c, s, u) {
      hide NoSlotReads, Step;
    } else {
      StepLoadsRecords(c, s, u);
      hide LoadsRecords, NoSlotReads, Step;
    }
  }

  /** A unit in state t has read what it reads in the serial run. */
  ghost predicate UnitSerial(c: Config, u: nat, t: UnitState)
    requires Ready(c) && u < NumUnits(c.job)
  {
    c.job.start[u] <= t.pc <= c.job.start[u + 1] && t.seen == SerialRun(c.job, Db(c), u, t.pc).seen
  }

  ghost predicate ReadsSerially(c: Config, s: State)
    requires Ready(c) && |s.units| == NumUnits(c.job)
  {
    forall u: nat | u < |s.units| :: UnitSerial(c, u, s.units[u])
  }

  lemma {:induction false} UnitIsSerial(c: Config, schedule: seq<nat>, u: nat)
    requires Ready(c) && IsSchedule(c, schedule) && u < NumUnits(c.job)
    ensures UnitSerial(c, u, Run(c, schedule).units[u])
  {
    ReadsAreSerial(c, schedule, u);
    hide Ready, SerialRun;
  }

  lemma {:induction false} WithoutSlotReads(c: Config, schedule: seq<nat>)
    requires Ready(c) && IsSchedule(c, schedule) && NoSlotReads(c)
    ensures ReadsSerially(c, CpuRun(c, schedule))
  {
    RunsAgree(c, schedule);
    hide UnitSerial, LoadsRecords, SameRecords, NoSlotReads;
    forall u: nat | u < NumUnits(c.job) ensures UnitSerial(c, u, CpuRun(c, schedule).units[u]) {
      UnitIsSerial(c, schedule, u);
    }
  }

  // ------------------------------------------------------------- with reads of version slots

  /** The two forms make the same choices, whatever the words are. */
  ghost predicate SamePhase(p: Phase, q: Phase) {
    match p
    case Idle => q.Idle?
    case Waiting(cell) => q == p
    case Loading(cell, got) => q.Loading? && q.cell == cell && |q.got| == |got|
    case Storing(cell, stored) => q == p
  }

  ghost predicate SameShape(s: State, s': State) {
    && |s.units| == |s'.units| && s.mem.tags == s'.mem.tags
    && forall u: nat | u < |s.units| ::
         s.units[u].pc == s'.units[u].pc && SamePhase(s.units[u].phase, s'.units[u].phase)
  }

  lemma {:induction false} StepsKeepShape(c: Config, s: State, s': State, u: nat)
    requires |c.loc| == |c.job.ops| && |c.job.start| == |s.units| + 1 && u < |s.units| && SameShape(s, s')
    ensures SameShape(CpuStep(c, s, u), Step(c, s', u))
  {
    hide CpuStep, Step, SamePhase;
    OtherUnitsStay(c, s, u);
    OtherUnitsStay(c, s', u);
    UnitKeepsShape(c, s, s', u);
  }

  lemma OtherUnitsStay(c: Config, s: State, u: nat)
    requires |c.loc| == |c.job.ops| && |c.job.start| == |s.units| + 1 && u < |s.units|
    ensures |CpuStep(c, s, u).units| == |s.units| == |Step(c, s, u).units|
    ensures forall v: nat | v < |s.units| && v != u ::
              CpuStep(c, s, u).units[v] == s.units[v] == Step(c, s, u).units[v]
  {
    hide SelectStore, SelectRead;
  }

  lemma {:induction false} UnitKeepsShape(c: Config, s: State, s': State, u: nat)
    requires |c.loc| == |c.job.ops| && |c.job.start| == |s.units| + 1 && u < |s.units| && SameShape(s, s')
    requires |CpuStep(c, s, u).units| == |Step(c, s', u).units| == |s.units|
    ensures var t, t' := CpuStep(c, s, u).units[u], Step(c, s', u).units[u];
            t.pc == t'.pc && SamePhase(t.phase, t'.phase)
    ensures CpuStep(c, s, u).mem.tags == Step(c, s', u).mem.tags
  {
    SameTags(s.mem, s'.mem);
    assert SamePhase(s.units[u].phase, s'.units[u].phase);
  }

  lemma SameTags(m: Memory, m': Memory)
    requires m.tags == m'.tags
    ensures forall cell :: m.Tag(cell) == m'.Tag(cell)
  {}

  lemma {:induction false} RunsKeepShape(c: Config, schedule: seq<nat>)
    requires |c.loc| == |c.job.ops| && |c.job.start| > 0 && IsSchedule(c, schedule)
    ensures SameShape(CpuRun(c, schedule), Run(c, schedule))
  {
    if schedule != [] {
      var before, u := schedule[..|schedule| - 1], schedule[|schedule| - 1];
      RunsKeepShape(c, before);
      hide SameShape, CpuStep, Step;
      StepsKeepShape(c, CpuRun(c, before), Run(c, before), u);
    }
  }

  lemma {:induction false} FinishedOrMoves(c: Config, schedule: seq<nat>)
    requires Ready(c) && IsSchedule(c, schedule)
    ensures Finished(c, Run(c, schedule)) || exists u: nat :: u < NumUnits(c.job) && Moves(c, Run(c, schedule), u)
  {
    var s := Run(c, schedule);
    RunKeepsInv(c, schedule);
    if v: nat :| v < |s.units| && s.units[v].pc != c.job.start[v + 1] {
      assert !UnitFinished(c, s, v);
      var w := FirstUnfinished(c, s, v + 1);
      SmallestMoves(c, s, w);
    }
  }

  /** From every state there is a way to the end. */
  lemma {:induction false} CanFinish(c: Config, schedule: seq<nat>) returns (longer: seq<nat>)
    requires Ready(c) && IsSchedule(c, schedule) && PcsInRange(c, Run(c, schedule))
             && TotalLeft(c, Run(c, schedule)) >= 0
    ensures IsSchedule(c, longer) && Finished(c, Run(c, longer))
    decreases TotalLeft(c, Run(c, schedule))
  {
    hide Ready, TotalLeft, PcsInRange, Moves, Run, Finished;
    Shape(c);
    FinishedOrMoves(c, schedule);
    if Finished(c, Run(c, schedule)) {
      longer := schedule;
    } else {
      var u: nat :| u < NumUnits(c.job) && Moves(c, Run(c, schedule), u);
      OneStepNearer(c, schedule, u);
      longer := CanFinish(c, schedule + [u]);
    }
  }

  lemma {:induction false} FirstUnfinished(c: Config, s: State, n: nat) returns (u: nat)
    requires |c.job.start| == |s.units| + 1 && 0 < n <= |s.units| && !UnitFinished(c, s, n - 1)
    ensures u < n && !UnitFinished(c, s, u) && forall v: nat | v < u :: UnitFinished(c, s, v)
  {
    if v: nat :| v < n - 1 && !UnitFinished(c, s, v) {
      u := FirstUnfinished(c, s, v + 1);
    } else {
      u := n - 1;
    }
  }

  /** What the read h of unit u gave it, when it has got as far as p. */
  function ReadsBefore(j: Job, u: nat, p: nat): (n: nat)
    requires u + 1 < |j.start| && j.start[u] <= p <= |j.ops|
    decreases p
  {
    if p == j.start[u] then 0 else ReadsBefore(j, u, p - 1) + (if j.ops[p - 1].write then 0 else 1)
  }

  lemma {:induction false} SerialSeen(j: Job, db: Database, u: nat, h: nat, p: nat)
    requires WellFormed(j) && u < NumUnits(j) && j.start[u] <= h < p <= j.start[u + 1] <= |j.ops| && !j.ops[h].write
    ensures var seen := SerialRun(j, db, u, p).seen;
            ReadsBefore(j, u, h) < |seen| == ReadsBefore(j, u, p) && seen[ReadsBefore(j, u, h)] == SerialRead(j, db, h)
    decreases p
  {
    hide WellFormed;
    SeenLength(j, db, u, p);
    if h == p - 1 {
      OwnerIsUnique(j, u, h);
      SeenLength(j, db, u, h);
    } else {
      SerialSeen(j, db, u, h, p - 1);
    }
  }

  lemma {:induction false} SeenLength(j: Job, db: Database, u: nat, p: nat)
    requires WellFormed(j) && u < NumUnits(j) && j.start[u] <= p <= j.start[u + 1] <= |j.ops|
    ensures |SerialRun(j, db, u, p).seen| == ReadsBefore(j, u, p)
    decreases p
  {
    hide WellFormed;
    if p > j.start[u] {
      SeenLength(j, db, u, p - 1);
    }
  }

  /** Row r has a first word, which is 0. */
  predicate StartsWithZero(r: Row) { |r| > 0 && r[0] == 0 }

  /** What unit u has read from version slots is what was there before the epoch: zeros. */
  ghost predicate UnitStale(c: Config, u: nat, t: UnitState)
    requires WellFormed(c.job) && u < NumUnits(c.job)
  {
    && c.job.start[u] <= t.pc <= c.job.start[u + 1] <= |c.job.ops|
    && |t.seen| == ReadsBefore(c.job, u, t.pc)
    && (forall h: nat | c.job.start[u] <= h < t.pc && SlotRead(c, h) :: SeenStale(c, u, t.seen, h))
    && (t.pc < c.job.start[u + 1] ==>
          match t.phase
          case Idle => true
          case Waiting(cell) => !c.job.ops[t.pc].write && (SlotRead(c, t.pc) ==> cell.VersionCell?)
          case Loading(cell, got) =>
            !c.job.ops[t.pc].write && (SlotRead(c, t.pc) ==> cell.VersionCell? && (|got| > 0 ==> got[0] == 0))
          case Storing(_, _) => c.job.ops[t.pc].write)
  }

  ghost predicate SeenStale(c: Config, u: nat, seen: seq<Row>, h: nat)
    requires WellFormed(c.job) && u < NumUnits(c.job) && c.job.start[u] <= h <= |c.job.ops|
  {
    ReadsBefore(c.job, u, h) < |seen| && StartsWithZero(seen[ReadsBefore(c.job, u, h)])
  }

  ghost predicate SlotsEmpty(m: Memory) {
    forall cell: Cell, i: nat | cell.VersionCell? :: m.WordAt(cell, i) == 0
  }

  ghost predicate Stale(c: Config, s: State)
    requires WellFormed(c.job)
  {
    && |s.units| == NumUnits(c.job) && SlotsEmpty(s.mem)
    && forall u: nat | u < |s.units| :: UnitStale(c, u, s.units[u])
  }

  lemma {:induction false} StoresLeaveSlots(m: Memory, cell: Cell, i: nat, w: Word, tag: nat)
    requires SlotsEmpty(m)
    ensures cell.RecordCell? ==> SlotsEmpty(m.SetWord(cell, i, w))
    ensures SlotsEmpty(m.SetTag(cell, tag))
  {
    forall other: Cell, n: nat | other.VersionCell?
      ensures cell.RecordCell? ==> m.SetWord(cell, i, w).WordAt(other, n) == 0
      ensures m.SetTag(cell, tag).WordAt(other, n) == 0
    {
      assert m.WordAt(other, n) == 0;
    }
  }

  lemma {:induction false} CpuStepLeavesSlots(c: Config, s: State, u: nat)
    requires |c.loc| == |c.job.ops| && |c.job.start| == |s.units| + 1 && u < |s.units| && SlotsEmpty(s.mem)
    ensures SlotsEmpty(CpuStep(c, s, u).mem)
  {
    var t := s.units[u];
    if t.phase.Storing? && t.pc < |c.job.ops| {
      StoresLeaveSlots(s.mem, t.phase.cell, t.phase.stored, c.job.lane(t.pc, t.seen, t.phase.stored), c.epoch);
    }
    hide SlotsEmpty;
  }

  /** The stepping unit has moved from one state to the next of an access, or completed it. */
  lemma {:induction false} UnitStaysStale(c: Config, s: State, u: nat)
    requires WellFormed(c.job) && |c.loc| == |c.job.ops| && Stale(c, s) && u < NumUnits(c.job)
    requires s.units[u].pc < c.job.start[u + 1]
    ensures UnitStale(c, u, CpuStep(c, s, u).units[u])
  {
    var t, t' := s.units[u], CpuStep(c, s, u).units[u];
    assert UnitStale(c, u, t);
    if t'.pc == t.pc {
      assert t'.seen == t.seen;
      forall h: nat | c.job.start[u] <= h < t.pc && SlotRead(c, h) ensures SeenStale(c, u, t.seen, h) {}
    } else {
      CompletedStale(c, u, t, t');
    }
  }

  lemma {:induction false} CompletedStale(c: Config, u: nat, t: UnitState, t': UnitState)
    requires WellFormed(c.job) && |c.loc| == |c.job.ops| && u < NumUnits(c.job) && UnitStale(c, u, t)
    requires t.pc < c.job.start[u + 1] && t'.pc == t.pc + 1 && t'.phase.Idle?
    requires if c.job.ops[t.pc].write then t'.seen == t.seen
             else
               && t.phase.Loading? && |t.phase.got| >= WidthOf(c.job, c.job.ops[t.pc].key)
               && t'.seen == t.seen + [t.phase.got]
    ensures UnitStale(c, u, t')
  {
    hide WellFormed;
    forall h: nat | c.job.start[u] <= h < t'.pc && SlotRead(c, h) ensures SeenStale(c, u, t'.seen, h) {
      if h < t.pc { assert SeenStale(c, u, t.seen, h); }
    }
  }

  lemma {:induction false} CpuStepStaysStale(c: Config, s: State, u: nat)
    requires WellFormed(c.job) && |c.loc| == |c.job.ops| && Stale(c, s) && u < NumUnits(c.job)
    ensures Stale(c, CpuStep(c, s, u))
  {
    hide UnitStale, SlotsEmpty, CpuStep;
    CpuStepLeavesSlots(c, s, u);
    assert UnitStale(c, u, s.units[u]);
    if s.units[u].pc < c.job.start[u + 1] {
      UnitStaysStale(c, s, u);
    }
    OthersUntouched(c, s, u);
  }

  lemma OthersUntouched(c: Config, s: State, u: nat)
    requires |c.loc| == |c.job.ops| && |c.job.start| == |s.units| + 1 && u < |s.units|
    ensures |CpuStep(c, s, u).units| == |s.units|
    ensures forall v: nat | v < |s.units| && v != u :: CpuStep(c, s, u).units[v] == s.units[v]
    ensures s.units[u].pc >= c.job.start[u + 1] ==> CpuStep(c, s, u) == s
  {}

  lemma {:induction false} CpuRunStaysStale(c: Config, schedule: seq<nat>)
    requires WellFormed(c.job) && |c.loc| == |c.job.ops| && c.begin.words == map[] && IsSchedule(c, schedule)
    ensures Stale(c, CpuRun(c, schedule))
  {
    if schedule == [] {
      forall u: nat | u < NumUnits(c.job) ensures UnitStale(c, u, Initial(c).units[u]) {
        StartsInRange(c.job, u + 1);
      }
    } else {
      CpuRunStaysStale(c, schedule[..|schedule| - 1]);
      hide Stale, CpuStep;
      CpuStepStaysStale(c, CpuRun(c, schedule[..|schedule| - 1]), schedule[|schedule| - 1]);
    }
  }

  /** The same batch and tags with other lanes and other words in memory. */
  function With(c: Config, lane: (nat, seq<Row>, nat) -> Word, words: map<(Cell, nat), Word>): Config {
    c.(job := c.job.(lane := lane), begin := Memory(c.begin.tags, words))
  }

  lemma {:induction false} StaysReady(c: Config, lane: (nat, seq<Row>, nat) -> Word, words: map<(Cell, nat), Word>)
    requires Ready(c)
    ensures Ready(With(c, lane, words))
  {
    hide PlanOk, WellFormed;
    assert PlanOk(With(c, lane, words).job.ops, With(c, lane, words).loc, TableOf);
    assert WellFormed(With(c, lane, words).job) by { SameShapeJob(c.job, With(c, lane, words).job); }
    forall cell ensures With(c, lane, words).begin.Tag(cell) == c.begin.Tag(cell) {}
  }

  lemma SameShapeJob(j: Job, j': Job)
    requires WellFormed(j) && j'.ops == j.ops && j'.start == j.start
    ensures WellFormed(j')
  {}

  /** In the serial run with lanes that always write 1, a read of a version slot reads a 1. */
  lemma {:induction false} SlotReadIsOne(c: Config, g: nat)
    requires Ready(c) && SlotRead(c, g) && forall h: nat, seen: seq<Row>, i: nat :: c.job.lane(h, seen, i) == 1
    ensures |SerialRead(c.job, Db(c), g)| > 0 && SerialRead(c.job, Db(c), g)[0] == 1
  {
    var w := LastWrite(c.job.ops, c.job.ops[g].key, g);
    assert w >= 0;
    var u := c.job.ops[g].unit;
    StoreIsLastWrite(c.job, Db(c), u, g, c.job.ops[g].key);
    hide Ready, SerialRun, LastWrite;
    assert SerialRead(c.job, Db(c), g) == SerialWrite(c.job, Db(c), w);
  }

  /** One read of a version slot is enough for some run of some batch of the same shape to read
      what no serial run reads. */
  lemma {:induction false} SlotReadGoesWrong(c: Config, g: nat)
    returns (lane: (nat, seq<Row>, nat) -> Word, schedule: seq<nat>)
    requires Ready(c) && SlotRead(c, g)
    ensures Ready(With(c, lane, map[])) && IsSchedule(c, schedule)
    ensures !ReadsSerially(With(c, lane, map[]), CpuRun(With(c, lane, map[]), schedule))
  {
    lane := (h: nat, seen: seq<Row>, i: nat) => 1;
    var c' := With(c, lane, map[]);
    StaysReady(c, lane, map[]);
    schedule := FinishingSchedule(c');
    RunsKeepShape(c', schedule);
    CpuRunStaysStale(c', schedule);
    SlotReadIsOne(c', g);
    StaleIsNotSerial(c', CpuRun(c', schedule), Run(c', schedule), g);
  }

  lemma {:induction false} FinishingSchedule(c: Config) returns (schedule: seq<nat>)
    requires Ready(c)
    ensures IsSchedule(c, schedule) && Finished(c, Run(c, schedule))
  {
    RunKeepsInv(c, []);
    TotalIsNatural(c, Run(c, []));
    schedule := CanFinish(c, []);
  }

  lemma {:induction false} StaleIsNotSerial(c: Config, s: State, s': State, g: nat)
    requires Ready(c) && SlotRead(c, g) && Stale(c, s) && SameShape(s, s') && |s'.units| == NumUnits(c.job)
             && Finished(c, s')
    requires |SerialRead(c.job, Db(c), g)| > 0 && SerialRead(c.job, Db(c), g)[0] == 1
    ensures !ReadsSerially(c, s)
  {
    var u := c.job.ops[g].unit;
    var t := s.units[u];
    assert t.pc == c.job.start[u + 1];
    StartsInRange(c.job, u + 1);
    assert UnitStale(c, u, t);
    assert SeenStale(c, u, t.seen, g);
    SerialSeen(c.job, Db(c), u, g, t.pc);
    hide Ready, SerialRun, Stale, SameShape;
    assert !UnitSerial(c, u, t);
  }

  /** For this batch and plan the CPU form reads serially whatever the rows, the lanes and the
      interleaving. */
  ghost predicate CpuAlwaysSerial(c: Config)
    requires Ready(c)
  {
    forall lane: (nat, seq<Row>, nat) -> Word, words: map<(Cell, nat), Word>, schedule: seq<nat> |
      Ready(With(c, lane, words)) && IsSchedule(c, schedule) ::
      ReadsSerially(With(c, lane, words), CpuRun(With(c, lane, words), schedule))
  }

  /** The CPU form keeps serial equivalence for exactly the plans in which nobody reads a version
      slot. */
  lemma {:induction false} CpuSerialIffNoSlotReads(c: Config)
    requires Ready(c)
    ensures CpuAlwaysSerial(c) <==> NoSlotReads(c)
  {
    if NoSlotReads(c) {
      forall lane: (nat, seq<Row>, nat) -> Word, words: map<(Cell, nat), Word>, schedule: seq<nat> |
        Ready(With(c, lane, words)) && IsSchedule(c, schedule)
        ensures ReadsSerially(With(c, lane, words), CpuRun(With(c, lane, words), schedule))
      {
        assert NoSlotReads(With(c, lane, words)) by {
          forall g: nat ensures !SlotRead(With(c, lane, words), g) { assert !SlotRead(c, g); }
        }
        hide Ready, ReadsSerially, NoSlotReads;
        WithoutSlotReads(With(c, lane, words), schedule);
      }
    } else {
      var g: nat :| SlotRead(c, g);
      hide Ready, ReadsSerially, NoSlotReads, SlotRead;
      var lane, schedule := SlotReadGoesWrong(c, g);
      assert !ReadsSerially(With(c, lane, map[]), CpuRun(With(c, lane, map[]), schedule));
    }
  }

  // ------------------------------------------------------------- the condition on the batch

  /** Read g, of a row with any words, lies between two writes of its record. */
  ghost predicate BetweenWrites(j: Job, g: nat) {
    && g < |j.ops| && !j.ops[g].write && WidthOf(j, j.ops[g].key) > 0
    && (exists w: nat :: w < g && WritesAt(j.ops, j.ops[g].key, w))
    && (exists h: nat :: g < h < |j.ops| && WritesAt(j.ops, j.ops[g].key, h))
  }

  /** In a correct plan exactly those reads are sent to version slots. */
  lemma {:induction false} SlotReadIffBetweenWrites(c: Config, g: nat)
    requires Ready(c)
    ensures SlotRead(c, g) <==> BetweenWrites(c.job, g)
  {
    hide HandOff, WellFormed, SlotsDistinct, LastWrite;
    if g < |c.job.ops| && !c.job.ops[g].write && WidthOf(c.job, c.job.ops[g].key) > 0 {
      var k := c.job.ops[g].key;
      var w := LastWrite(c.job.ops, k, g);
      if w >= 0 {
        assert c.loc[g] == c.loc[w] && c.job.ops[w].write;
        assert NoLaterWrite(c.job.ops, w) <==> forall h | g < h < |c.job.ops| :: !WritesAt(c.job.ops, k, h);
      }
    }
  }

  /** The CPU form keeps serial equivalence for exactly the batches in which no read lies between two
      writes of its record. */
  lemma {:induction false} CpuSerialIffNoReadBetweenWrites(c: Config)
    requires Ready(c)
    ensures CpuAlwaysSerial(c) <==> forall g: nat :: !BetweenWrites(c.job, g)
  {
    hide Ready, BetweenWrites, CpuAlwaysSerial, SlotRead;
    CpuSerialIffNoSlotReads(c);
    forall g: nat ensures SlotRead(c, g) <==> BetweenWrites(c.job, g) { SlotReadIffBetweenWrites(c, g); }
  }

  // ------------------------------------------------------------- the strided threads

  /** A run of the CPU's threads: every step is of a unit that its thread has come to, and is not a
      spin. */
  ghost predicate CpuStridedRun(c: Config, threads: nat, schedule: seq<nat>)
    requires Ready(c)
  {
    && IsSchedule(c, schedule)
    && forall n: nat | n < |schedule| :: StridedStep(c, CpuRun(c, schedule[..n]), threads, schedule[n])
  }

  lemma {:induction false} SameShapeSameSteps(c: Config, s: State, s': State, threads: nat, u: nat)
    requires |c.job.start| == |s.units| + 1 && u < |s.units| && SameShape(s, s')
    ensures StridedStep(c, s, threads, u) <==> StridedStep(c, s', threads, u)
  {
    forall cell ensures s.mem.Tag(cell) == s'.mem.Tag(cell) {}
    assert SamePhase(s.units[u].phase, s'.units[u].phase);
  }

  lemma {:induction false} StridedRunsMatch(c: Config, threads: nat, schedule: seq<nat>)
    requires Ready(c) && CpuStridedRun(c, threads, schedule)
    ensures StridedRun(c, threads, schedule)
  {
    hide StridedStep;
    forall n: nat | n < |schedule| ensures StridedStep(c, Run(c, schedule[..n]), threads, schedule[n]) {
      StepMatches(c, threads, schedule, n);
    }
  }

  lemma {:induction false} StepMatches(c: Config, threads: nat, schedule: seq<nat>, n: nat)
    requires Ready(c) && CpuStridedRun(c, threads, schedule) && n < |schedule|
    ensures IsSchedule(c, schedule[..n]) && StridedStep(c, Run(c, schedule[..n]), threads, schedule[n])
  {
    var before, u := schedule[..n], schedule[n];
    assert StridedStep(c, CpuRun(c, before), threads, u) && IsSchedule(c, before);
    hide CpuStridedRun, StridedStep, SameShape, PlanOk, HandOff, Run, CpuRun;
    RunsKeepShape(c, before);
    SameShapeSameSteps(c, CpuRun(c, before), Run(c, before), threads, u);
  }

  lemma {:induction false} SameContents(m: Memory, m': Memory, width: nat -> nat, k: Key)
    requires m.tags == m'.tags && SameRecords(m, m')
    ensures Contents(m, width)(k) == Contents(m', width)(k)
  {
    forall cell ensures m.Tag(cell) == m'.Tag(cell) {}
    var cell := NewestCell(m, k);
    assert m.RowAt(cell, width(k.table)) == m'.RowAt(cell, width(k.table)) by {
      forall i: nat ensures m.WordAt(cell, i) == m'.WordAt(cell, i) {}
    }
  }

  /** Every run of the CPU's threads ends with all units finished, whatever is read; and if no read
      lies between two writes of its record, memory then holds the serial result. */
  lemma {:induction false} CpuThreadsEnd(c: Config, threads: nat, schedule: seq<nat>)
    requires Ready(c) && threads > 0 && CpuStridedRun(c, threads, schedule)
    ensures PcsInRange(c, Initial(c)) && |schedule| <= TotalLeft(c, Initial(c))
    ensures (forall u: nat | u < NumUnits(c.job) :: !StridedStep(c, CpuRun(c, schedule), threads, u)) ==>
              && Finished(c, CpuRun(c, schedule))
              && ((forall g: nat :: !BetweenWrites(c.job, g)) ==>
                    forall k :: Contents(CpuRun(c, schedule).mem, c.job.width)(k) == SerialResult(c.job, Db(c))(k))
  {
    hide Ready, StridedRun, CpuStridedRun, StridedStep, PcsInRange, TotalLeft, SameShape, Contents;
    hide BetweenWrites, Finished;
    Shape(c);
    StridedIsSchedule(c, threads, schedule);
    StridedRunsMatch(c, threads, schedule);
    StridedEndsSerially(c, threads, schedule);
    RunsKeepShape(c, schedule);
    SameShapeSameEnd(c, CpuRun(c, schedule), Run(c, schedule));
    forall u: nat | u < NumUnits(c.job)
      ensures StridedStep(c, CpuRun(c, schedule), threads, u) <==> StridedStep(c, Run(c, schedule), threads, u)
    {
      SameShapeSameSteps(c, CpuRun(c, schedule), Run(c, schedule), threads, u);
    }
    if forall g: nat :: !BetweenWrites(c.job, g) { SameRowsLeft(c, schedule); }
  }

  lemma StridedIsSchedule(c: Config, threads: nat, schedule: seq<nat>)
    requires Ready(c) && CpuStridedRun(c, threads, schedule)
    ensures IsSchedule(c, schedule)
  {
    hide Ready, StridedStep;
  }

  lemma SameShapeSameEnd(c: Config, s: State, s': State)
    requires |c.job.start| == |s.units| + 1 && SameShape(s, s')
    ensures |s'.units| == |s.units| && (Finished(c, s) <==> Finished(c, s'))
  {
    hide SamePhase;
  }

  lemma {:induction false} SameRowsLeft(c: Config, schedule: seq<nat>)
    requires Ready(c) && IsSchedule(c, schedule) && forall g: nat :: !BetweenWrites(c.job, g)
    ensures forall k :: Contents(CpuRun(c, schedule).mem, c.job.width)(k) ==
                        Contents(Run(c, schedule).mem, c.job.width)(k)
  {
    hide Ready, SlotRead, BetweenWrites, SameRecords, LoadsRecords, Contents;
    Shape(c);
    forall g: nat ensures !SlotRead(c, g) { SlotReadIffBetweenWrites(c, g); }
    RunsAgree(c, schedule);
    forall k ensures Contents(CpuRun(c, schedule).mem, c.job.width)(k) ==
           Contents(Run(c, schedule).mem, c.job.width)(k) {
      SameContents(CpuRun(c, schedule).mem, Run(c, schedule).mem, c.job.width, k);
    }
  }
}
