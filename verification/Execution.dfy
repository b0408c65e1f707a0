/** One epoch of concurrent execution: what a warp does between two of its shared-memory
    accesses is one step, a row is read and written word by word, and publishing a version tag
    is a step of its own.  The serial meaning of the same transactions is defined beside it. */
module Execution {
  import opened Accesses

  datatype Key = Key(table: nat, row: nat)

  function TableOf(k: Key): nat { k.table }

  type Word = nat
  type Row = seq<Word>

  // ------------------------------------------------------------------------ storage

  datatype Side = One | Two

  function Other(side: Side): Side { if side == One then Two else One }

  /** A place that holds a row and a version tag. */
  datatype Cell =
    | RecordCell(key: Key, side: Side)
    | VersionCell(table: nat, slot: nat)

  /** Device memory, zero where nothing was written. */
  datatype Memory = Memory(tags: map<Cell, nat>, words: map<(Cell, nat), Word>) {
    function Tag(cell: Cell): nat {
      if cell in tags then tags[cell] else 0
    }

    function WordAt(cell: Cell, i: nat): Word {
      if (cell, i) in words then words[(cell, i)] else 0
    }

    function RowAt(cell: Cell, width: nat): Row {
      seq(width, i requires 0 <= i < width => WordAt(cell, i))
    }

    function SetTag(cell: Cell, tag: nat): Memory {
      this.(tags := tags[cell := tag])
    }

    function SetWord(cell: Cell, i: nat, w: Word): Memory {
      this.(words := words[(cell, i) := w])
    }
  }

  /** The side that holds the newest row between two epochs. */
  function NewestSide(version1: nat, version2: nat): Side {
    if version1 < version2 then Two else One
  }

  /** Record A read. */
  function SelectA(version1: nat, version2: nat, epoch: nat): Side {
    if version1 == epoch then Two
    else if version2 == epoch then One
    else if version1 < version2 then Two
    else One
  }

  /** Record B read: the side, and whether the reader has to wait for its tag. */
  function SelectB(version1: nat, version2: nat, epoch: nat): (Side, bool) {
    if version1 == epoch then (One, false)
    else if version2 == epoch then (Two, false)
    else if version1 < version2 then (One, true)
    else (Two, true)
  }

  /** Record B write. */
  function SelectWrite(version1: nat, version2: nat): Side {
    if version1 < version2 then One else Two
  }

  // --------------------------------------------------------------- what is executed

  /** The units of one epoch: unit u performs ops[start[u]..start[u+1]], and lane computes word i
      of the row written by access g from the rows the unit has read so far. */
  datatype Job = Job(ops: seq<Access<Key>>, start: seq<nat>, lane: (nat, seq<Row>, nat) -> Word, width: nat -> nat)

  ghost predicate WellFormed(j: Job) {
    && |j.start| > 0 && j.start[0] == 0 && j.start[|j.start| - 1] == |j.ops|
    && (forall u, v | 0 <= u <= v < |j.start| :: j.start[u] <= j.start[v])
    && (forall g | 0 <= g < |j.ops| ::
          var u := j.ops[g].unit; u + 1 < |j.start| && j.start[u] <= g < j.start[u + 1])
  }

  function NumUnits(j: Job): nat
    requires |j.start| > 0
  {
    |j.start| - 1
  }

  function WidthOf(j: Job, k: Key): nat { j.width(k.table) }

  function WrittenRow(j: Job, g: nat, seen: seq<Row>): (r: Row)
    requires g < |j.ops|
    ensures |r| == WidthOf(j, j.ops[g].key)
  {
    seq(WidthOf(j, j.ops[g].key), i requires 0 <= i < WidthOf(j, j.ops[g].key) => j.lane(g, seen, i))
  }

  // ------------------------------------------------------------------- serial meaning

  /** A database: the row of every record. */
  type Database = Key -> Row

  /** A serial run: the rows overwritten so far, and what the current unit has read. */
  datatype Serial = Serial(store: map<Key, Row>, seen: seq<Row>)

  function Lookup(store: map<Key, Row>, db: Database, k: Key): Row {
    if k in store then store[k] else db(k)
  }

  function SerialOp(j: Job, db: Database, s: Serial, g: nat): Serial
    requires g < |j.ops|
  {
    var k := j.ops[g].key;
    if j.ops[g].write then s.(store := s.store[k := WrittenRow(j, g, s.seen)])
    else s.(seen := s.seen + [Lookup(s.store, db, k)])
  }

  /** Unit u up to its access p, after all the units before it. */
  function SerialRun(j: Job, db: Database, u: nat, p: nat): Serial
    requires WellFormed(j) && u < NumUnits(j) && j.start[u] <= p <= j.start[u + 1]
    decreases u, 1, p
  {
    if p == j.start[u] then Serial(SerialStore(j, db, u), [])
    else SerialOp(j, db, SerialRun(j, db, u, p - 1), p - 1)
  }

  /** The rows overwritten by the first u units, one after the other. */
  function SerialStore(j: Job, db: Database, u: nat): map<Key, Row>
    requires WellFormed(j) && u <= NumUnits(j)
    decreases u, 0, 0
  {
    if u == 0 then map[] else SerialRun(j, db, u - 1, j.start[u]).store
  }

  /** The database after the whole epoch. */
  function SerialResult(j: Job, db: Database): Database
    requires WellFormed(j)
  {
    var store := SerialStore(j, db, NumUnits(j));
    k => Lookup(store, db, k)
  }

  function Before(j: Job, db: Database, g: nat): Serial
    requires WellFormed(j) && g < |j.ops|
  {
    SerialRun(j, db, j.ops[g].unit, g)
  }

  /** What access g reads, and what it writes, in the serial run. */
  function SerialRead(j: Job, db: Database, g: nat): Row
    requires WellFormed(j) && g < |j.ops|
  {
    Lookup(Before(j, db, g).store, db, j.ops[g].key)
  }

  function SerialWrite(j: Job, db: Database, g: nat): (r: Row)
    requires WellFormed(j) && g < |j.ops|
    ensures |r| == WidthOf(j, j.ops[g].key)
  {
    WrittenRow(j, g, Before(j, db, g).seen)
  }

  /** A record holds what its last write wrote. */
  lemma {:induction false} StoreIsLastWrite(j: Job, db: Database, u: nat, p: nat, k: Key)
    requires WellFormed(j) && u < NumUnits(j) && j.start[u] <= p <= j.start[u + 1] <= |j.ops|
    ensures HoldsLastWrite(j, db, SerialRun(j, db, u, p).store, p, k)
    decreases u, 1, p
  {
    hide WellFormed, SerialOp, SerialRun, SerialStore, HoldsLastWrite;
    if p == j.start[u] {
      RunBegins(j, db, u);
      StoreOfUnits(j, db, u, k);
    } else {
      StoreIsLastWrite(j, db, u, p - 1, k);
      OneMoreAccess(j, db, u, p, k);
    }
  }

  /** In store k has the row that its last write before p wrote. */
  ghost predicate HoldsLastWrite(j: Job, db: Database, store: map<Key, Row>, p: nat, k: Key)
    requires WellFormed(j) && p <= |j.ops|
  {
    var w := LastWrite(j.ops, k, p);
    Lookup(store, db, k) == if w < 0 then db(k) else SerialWrite(j, db, w)
  }

  lemma {:induction false} StoreOfUnits(j: Job, db: Database, u: nat, k: Key)
    requires WellFormed(j) && u <= NumUnits(j) && j.start[u] <= |j.ops|
    ensures HoldsLastWrite(j, db, SerialStore(j, db, u), j.start[u], k)
    decreases u, 0, 0
  {
    if u > 0 {
      StoreIsLastWrite(j, db, u - 1, j.start[u], k);
      hide WrittenRow, SerialOp, HoldsLastWrite;
    } else {
      hide WrittenRow, SerialOp;
    }
  }

  lemma {:induction false} OneMoreAccess(j: Job, db: Database, u: nat, p: nat, k: Key)
    requires WellFormed(j) && u < NumUnits(j) && j.start[u] < p <= j.start[u + 1] <= |j.ops|
    requires HoldsLastWrite(j, db, SerialRun(j, db, u, p - 1).store, p - 1, k)
    ensures HoldsLastWrite(j, db, SerialRun(j, db, u, p).store, p, k)
  {
    hide SerialRun, WellFormed, SerialOp, WrittenRow, Lookup;
    OwnerIsUnique(j, u, p - 1);
    RunGoesOn(j, db, u, p);
    LookupAfterOp(j, db, SerialRun(j, db, u, p - 1), p - 1, k);
  }

  lemma RunBegins(j: Job, db: Database, u: nat)
    requires WellFormed(j) && u < NumUnits(j)
    ensures j.start[u] <= j.start[u + 1] && SerialRun(j, db, u, j.start[u]).store == SerialStore(j, db, u)
  {}

  lemma RunGoesOn(j: Job, db: Database, u: nat, p: nat)
    requires WellFormed(j) && u < NumUnits(j) && j.start[u] < p <= j.start[u + 1] <= |j.ops|
    ensures SerialRun(j, db, u, p) == SerialOp(j, db, SerialRun(j, db, u, p - 1), p - 1)
  {
    hide WellFormed, SerialOp;
  }

  lemma {:induction false} LookupAfterOp(j: Job, db: Database, s: Serial, g: nat, k: Key)
    requires g < |j.ops|
    ensures Lookup(SerialOp(j, db, s, g).store, db, k) ==
            if WritesAt(j.ops, k, g) then WrittenRow(j, g, s.seen) else Lookup(s.store, db, k)
  {}

  lemma OwnerIsUnique(j: Job, u: nat, g: nat)
    requires WellFormed(j) && u < NumUnits(j) && j.start[u] <= g < j.start[u + 1] <= |j.ops|
    ensures j.ops[g].unit == u
  {
  }

  lemma StartsInRange(j: Job, u: nat)
    requires WellFormed(j) && u <= NumUnits(j)
    ensures j.start[u] <= |j.ops|
  {}

  // ------------------------------------------------------------------ the machine

  datatype Phase =
    | Idle
    | Waiting(cell: Cell)
    | Loading(cell: Cell, got: Row)
    | Storing(cell: Cell, stored: nat)

  datatype UnitState = UnitState(pc: nat, phase: Phase, seen: seq<Row>)

  datatype State = State(mem: Memory, units: seq<UnitState>)

  datatype Config = Config(job: Job, loc: seq<Loc>, epoch: nat, begin: Memory)

  /** What the leader lane does first: read the two tags at once and choose the cell. */
  function SelectRead(m: Memory, k: Key, loc: Loc, epoch: nat): Phase {
    var version1, version2 := m.Tag(RecordCell(k, One)), m.Tag(RecordCell(k, Two));
    match loc
    case RecordA => Loading(RecordCell(k, SelectA(version1, version2, epoch)), [])
    case RecordB =>
      var (side, wait) := SelectB(version1, version2, epoch);
      if wait then Waiting(RecordCell(k, side)) else Loading(RecordCell(k, side), [])
    case VersionSlot(slot) => Waiting(VersionCell(k.table, slot))
  }

  /** A write location other than record B is taken for a version slot, whatever it is. */
  function SelectStore(m: Memory, k: Key, loc: Loc): Phase {
    var version1, version2 := m.Tag(RecordCell(k, One)), m.Tag(RecordCell(k, Two));
    match loc
    case RecordB => Storing(RecordCell(k, SelectWrite(version1, version2)), 0)
    case VersionSlot(slot) => Storing(VersionCell(k.table, slot), 0)
    case RecordA => Storing(VersionCell(k.table, 0xFFFF_FFFF), 0)
  }

  /** One step of unit u.  A spinning unit stays as it is. */
  function Step(c: Config, s: State, u: nat): State
    requires |c.loc| == |c.job.ops| && |c.job.start| == |s.units| + 1 && u < |s.units|
  {
    var t := s.units[u];
    var g := t.pc;
    if g >= c.job.start[u + 1] || g >= |c.job.ops| then s
    else
      var op := c.job.ops[g];
      var width := WidthOf(c.job, op.key);
      match t.phase
      case Idle =>
        var phase := if op.write then SelectStore(s.mem, op.key, c.loc[g])
                     else SelectRead(s.mem, op.key, c.loc[g], c.epoch);
        s.(units := s.units[u := t.(phase := phase)])
      case Waiting(cell) =>
        if s.mem.Tag(cell) == c.epoch then s.(units := s.units[u := t.(phase := Loading(cell, []))]) else s
      case Loading(cell, got) =>
        if |got| < width then
          s.(units := s.units[u := t.(phase := Loading(cell, got + [s.mem.WordAt(cell, |got|)]))])
        else
          s.(units := s.units[u := UnitState(g + 1, Idle, t.seen + [got])])
      case Storing(cell, stored) =>
        if stored < width then
          State(s.mem.SetWord(cell, stored, c.job.lane(g, t.seen, stored)),
                s.units[u := t.(phase := Storing(cell, stored + 1))])
        else
          State(s.mem.SetTag(cell, c.epoch), s.units[u := UnitState(g + 1, Idle, t.seen)])
  }

  function Initial(c: Config): State
    requires |c.job.start| > 0
  {
    State(c.begin, seq(NumUnits(c.job), u requires 0 <= u < NumUnits(c.job) => UnitState(c.job.start[u], Idle, [])))
  }

  /** The run that lets the units step in the order of the schedule. */
  function Run(c: Config, schedule: seq<nat>): (s: State)
    requires |c.loc| == |c.job.ops| && |c.job.start| > 0
    requires forall i | 0 <= i < |schedule| :: schedule[i] < NumUnits(c.job)
    ensures |s.units| == NumUnits(c.job)
  {
    if schedule == [] then Initial(c)
    else Step(c, Run(c, schedule[..|schedule| - 1]), schedule[|schedule| - 1])
  }

  // ------------------------------------------------------------------ the hand-off

  /** Between epochs every tag is older than the next epoch, and a record's two tags differ
      unless the record was never written. */
  ghost predicate HandOff(m: Memory, epoch: nat) {
    && (forall cell | cell in m.tags :: m.tags[cell] < epoch)
    && (forall k :: m.Tag(RecordCell(k, One)) == m.Tag(RecordCell(k, Two)) ==> m.Tag(RecordCell(k, One)) == 0)
  }

  function NewestCell(m: Memory, k: Key): Cell {
    RecordCell(k, NewestSide(m.Tag(RecordCell(k, One)), m.Tag(RecordCell(k, Two))))
  }

  /** The database that a memory holds between epochs. */
  function Contents(m: Memory, width: nat -> nat): Database {
    k => m.RowAt(NewestCell(m, k), width(k.table))
  }

  ghost predicate Ready(c: Config) {
    && WellFormed(c.job)
    && PlanOk(c.job.ops, c.loc, TableOf)
    && c.epoch > 0
    && HandOff(c.begin, c.epoch)
  }

  ghost function Db(c: Config): Database {
    Contents(c.begin, c.job.width)
  }
}
