/** What the Delivery shortcut does in a batch in which a delivered order line is written again: a
    reader waits for ever for a version that nobody writes, or both sides of the record end up as the
    new one. */
module ShortcutFails {
  import opened Accesses
  import opened Execution
  import opened InOrder
  import opened SerialEquivalence
  import opened Tickets
  import opened TpccEpoch
  import opened TpccSubmitter

  // ------------------------------------------------------------------ a read that is held up

  /** No write is sent to the version slot that read r waits for. */
  ghost predicate NeverWritten(c: Config, r: nat)
    requires |c.loc| == |c.job.ops| && r < |c.job.ops|
  {
    && !c.job.ops[r].write && c.loc[r].VersionSlot?
    && forall g: nat | g < |c.job.ops| && c.job.ops[g].write ::
         c.loc[g] != RecordA && !(c.job.ops[g].key.table == c.job.ops[r].key.table && c.loc[g] == c.loc[r])
  }

  function AwaitedCell(c: Config, r: nat): Cell
    requires |c.loc| == |c.job.ops| && r < |c.job.ops| && c.loc[r].VersionSlot?
  {
    VersionCell(c.job.ops[r].key.table, c.loc[r].slot)
  }

  ghost predicate UnitAside(c: Config, s: State, u: nat, cell: Cell)
    requires u < |s.units| && u + 1 < |c.job.start|
  {
    && c.job.start[u] <= s.units[u].pc <= c.job.start[u + 1]
    && (s.units[u].phase.Storing? ==> s.units[u].phase.cell != cell)
  }

  /** Nobody has published the version, nobody is storing it, and its reader has not got past it. */
  ghost predicate HeldUp(c: Config, s: State, r: nat)
    requires WellFormed(c.job) && |c.loc| == |c.job.ops| && r < |c.job.ops| && c.loc[r].VersionSlot?
  {
    var cell, v := AwaitedCell(c, r), c.job.ops[r].unit;
    && |s.units| == NumUnits(c.job) && s.mem.Tag(cell) != c.epoch
    && (forall u: nat | u < |s.units| :: UnitAside(c, s, u, cell))
    && s.units[v].pc <= r && (s.units[v].pc == r ==> s.units[v].phase == Idle || s.units[v].phase == Waiting(cell))
  }

  lemma {:induction false} StaysHeldUp(c: Config, s: State, r: nat, u: nat)
    requires WellFormed(c.job) && |c.loc| == |c.job.ops| && r < |c.job.ops| && NeverWritten(c, r)
    requires HeldUp(c, s, r) && u < |s.units|
    ensures HeldUp(c, Step(c, s, u), r)
  {
    var cell, g, v := AwaitedCell(c, r), s.units[u].pc, c.job.ops[r].unit;
    assert UnitAside(c, s, u, cell) && v < |s.units|;
    var s' := Step(c, s, u);
    hide WellFormed;
    if g < c.job.start[u + 1] && g < |c.job.ops| {
      StepAside(c, s, r, u);
      hide NeverWritten, Step;
      forall w: nat | w < |s'.units| ensures UnitAside(c, s', w, cell) {
        if w != u { assert UnitAside(c, s, w, cell); }
      }
    }
  }

  /** What one step of a unit does to the awaited version: nothing. */
  lemma {:induction false} StepAside(c: Config, s: State, r: nat, u: nat)
    requires |c.loc| == |c.job.ops| && r < |c.job.ops| && NeverWritten(c, r) && |c.job.start| == |s.units| + 1
    requires u < |s.units| && s.mem.Tag(AwaitedCell(c, r)) != c.epoch && UnitAside(c, s, u, AwaitedCell(c, r))
    requires s.units[u].pc < c.job.start[u + 1] && s.units[u].pc < |c.job.ops|
    requires s.units[u].pc == r ==> s.units[u].phase == Idle || s.units[u].phase == Waiting(AwaitedCell(c, r))
    ensures var s', cell := Step(c, s, u), AwaitedCell(c, r);
            && |s'.units| == |s.units| && s'.mem.Tag(cell) != c.epoch && UnitAside(c, s', u, cell)
            && (forall w: nat | w < |s.units| && w != u :: s'.units[w] == s.units[w])
            && (s.units[u].pc < r ==> s'.units[u].pc <= r && (s'.units[u].pc == r ==> s'.units[u].phase == Idle))
            && (s.units[u].pc == r ==>
                  s'.units[u].pc == r && (s'.units[u].phase == Idle || s'.units[u].phase == Waiting(cell)))
  {
    var g := s.units[u].pc;
    if c.job.ops[g].write && s.units[u].phase.Idle? {
      assert c.loc[g] != RecordA;
      assert !(c.job.ops[g].key.table == c.job.ops[r].key.table && c.loc[g] == c.loc[r]);
    }
  }

  lemma {:induction false} HeldUpInRun(c: Config, r: nat, schedule: seq<nat>)
    requires WellFormed(c.job) && |c.loc| == |c.job.ops| && r < |c.job.ops| && NeverWritten(c, r)
    requires IsSchedule(c, schedule) && c.epoch > 0 && HandOff(c.begin, c.epoch)
    ensures HeldUp(c, Run(c, schedule), r)
    decreases |schedule|
  {
    if schedule == [] {
      hide NeverWritten;
    } else {
      hide HeldUp, NeverWritten, Step, HandOff, WellFormed;
      HeldUpInRun(c, r, schedule[..|schedule| - 1]);
      StaysHeldUp(c, Run(c, schedule[..|schedule| - 1]), r, schedule[|schedule| - 1]);
    }
  }

  lemma {:induction false} HeldUpIsUnfinished(c: Config, s: State, r: nat)
    requires WellFormed(c.job) && |c.loc| == |c.job.ops| && r < |c.job.ops| && c.loc[r].VersionSlot? && HeldUp(c, s, r)
    ensures !Finished(c, s)
  {
    var v := c.job.ops[r].unit;
    assert r < c.job.start[v + 1];
  }

  // ------------------------------------------------------------------ what a shortcut must do

  ghost predicate Finishes(c: Config, schedule: seq<nat>)
    requires WellFormed(c.job) && |c.loc| == |c.job.ops|
  {
    IsSchedule(c, schedule) && Finished(c, Run(c, schedule))
  }

  /** The run leaves the serial contents, in a memory from which the next epoch can start. */
  ghost predicate EndsWell(c: Config, schedule: seq<nat>)
    requires WellFormed(c.job) && |c.loc| == |c.job.ops| && IsSchedule(c, schedule)
  {
    && HandOff(Run(c, schedule).mem, c.epoch + 1)
    && forall k :: Contents(Run(c, schedule).mem, c.job.width)(k) == SerialResult(c.job, Db(c))(k)
  }

  /** The epoch can end, and ends well. */
  ghost predicate Works(c: Config)
    requires WellFormed(c.job) && |c.loc| == |c.job.ops|
  {
    && (exists schedule: seq<nat> :: Finishes(c, schedule))
    && (forall schedule: seq<nat> | Finishes(c, schedule) :: EndsWell(c, schedule))
  }

  lemma {:induction false} CorrectPlanWorks(c: Config)
    requires Ready(c)
    ensures Works(c)
  {
    assert Runnable(c);
    var schedule := InOrderSchedule(c, |c.job.ops|);
    InOrderIsFinished(c, Run(c, schedule));
    assert Finishes(c, schedule);
    hide Runnable, InOrderAt, Run, Finished, HandOff;
    forall schedule: seq<nat> | Finishes(c, schedule) ensures EndsWell(c, schedule) {
      EpochIsSerial(c, schedule);
    }
  }

  /** Two writes of one record that are both sent to B spoil the hand-off. */
  lemma {:induction false} TwoBsSpoil(c: Config, g: nat, h: nat)
    requires Runnable(c) && g < h < |c.job.ops| && SentToB(c, g) && SentToB(c, h)
    requires c.job.ops[g].key == c.job.ops[h].key
    ensures !Works(c)
  {
    var schedule := InOrderSchedule(c, |c.job.ops|);
    InOrderIsFinished(c, Run(c, schedule));
    assert Finishes(c, schedule);
    var k := c.job.ops[g].key;
    assert BothTagged(c, Run(c, schedule).mem, k);
    hide InOrderAt, Run, Finished, ReadsFollowWrites;
    assert !HandOff(Run(c, schedule).mem, c.epoch + 1);
    hide HandOff;
    assert !EndsWell(c, schedule);
  }

  /** Where a reader waits for a version that nobody writes, no run ends. */
  lemma {:induction false} NoRunEnds(c: Config, r: nat)
    requires WellFormed(c.job) && |c.loc| == |c.job.ops| && r < |c.job.ops| && NeverWritten(c, r)
    requires c.epoch > 0 && HandOff(c.begin, c.epoch)
    ensures forall schedule: seq<nat> :: !Finishes(c, schedule)
  {
    hide HandOff;
    forall schedule: seq<nat> | IsSchedule(c, schedule) ensures !Finished(c, Run(c, schedule)) {
      HeldUpInRun(c, r, schedule);
      HeldUpIsUnfinished(c, Run(c, schedule), r);
      hide HeldUp, NeverWritten;
    }
  }

  // ------------------------------------------------------------------ rerouted writes

  /** Some writes are sent to B instead of where the plan sends them. */
  ghost predicate Rerouted(c: Config, c': Config) {
    && c' == c.(loc := c'.loc) && |c'.loc| == |c.loc| == |c.job.ops|
    && forall g: nat | g < |c.loc| :: c'.loc[g] == c.loc[g] || (c.job.ops[g].write && c'.loc[g] == RecordB)
  }

  /** A reader that follows a rerouted write waits for a version that nobody writes. */
  lemma {:induction false} MisledReader(c: Config, c': Config, r: nat)
    requires PlanOk(c.job.ops, c.loc, TableOf) && Rerouted(c, c') && r < |c.job.ops| && !c.job.ops[r].write
    requires var w := LastWrite(c.job.ops, c.job.ops[r].key, r);
             c'.loc[r] != if w < 0 then RecordA else c'.loc[w]
    ensures NeverWritten(c', r)
  {
    var w: nat := LastWrite(c.job.ops, c.job.ops[r].key, r);
    assert c'.loc[r] == c.loc[r] == c.loc[w] && c'.loc[w] == RecordB && c.loc[w].VersionSlot?;
    hide ReadsFollowWrites;
    forall g: nat | g < |c.job.ops| && c.job.ops[g].write
      ensures c'.loc[g] != RecordA
      ensures !(c.job.ops[g].key.table == c.job.ops[r].key.table && c'.loc[g] == c'.loc[r])
    {
      if g != w { NotItsSlot(c, w, g); }
    }
  }

  lemma {:induction false} NotItsSlot(c: Config, w: nat, g: nat)
    requires PlanOk(c.job.ops, c.loc, TableOf) && w < |c.job.ops| && g < |c.job.ops| && g != w
    requires c.job.ops[w].write && c.job.ops[g].write && c.loc[w].VersionSlot?
    ensures c.loc[g] != RecordA && !(c.job.ops[g].key.table == c.job.ops[w].key.table && c.loc[g] == c.loc[w])
  {
    hide ReadsFollowWrites, NoLaterWrite;
    assert TableOf(c.job.ops[w].key) == c.job.ops[w].key.table && TableOf(c.job.ops[g].key) == c.job.ops[g].key.table;
  }

  lemma {:induction false} LastOfKey(ops: seq<Access<Key>>, g: nat) returns (h: nat)
    requires g < |ops| && ops[g].write && !NoLaterWrite(ops, g)
    ensures g < h < |ops| && WritesAt(ops, ops[g].key, h) && NoLaterWrite(ops, h)
  {
    h := LastWrite(ops, ops[g].key, |ops|);
  }

  lemma {:induction false} RerouteIsRunnable(c: Config, c': Config)
    requires Ready(c) && Rerouted(c, c') && ReadsFollowWrites(c.job.ops, c'.loc)
    ensures Runnable(c')
  {
    hide ReadsFollowWrites, SlotsDistinct, NoLaterWrite, WellFormed;
    forall g: nat | g < |c.job.ops| && c.job.ops[g].write ensures c'.loc[g] != RecordA {
      assert c.loc[g] != RecordA;
    }
  }

  /** A write that is sent to B although it is not the last of its record spoils the epoch. */
  lemma {:induction false} RerouteFails(c: Config, c': Config, g: nat)
    requires Ready(c) && Rerouted(c, c') && g < |c.job.ops| && SentToB(c', g) && !NoLaterWrite(c.job.ops, g)
    ensures !Works(c')
  {
    var ops := c.job.ops;
    if ReadsFollowWrites(ops, c'.loc) {
      RerouteIsRunnable(c, c');
      var h := LastOfKey(ops, g);
      assert c.loc[h] == RecordB && SentToB(c', h);
      hide Runnable, ReadsFollowWrites, Ready, Works, Rerouted;
      TwoBsSpoil(c', g, h);
    } else {
      hide SlotsDistinct, LastWritesGoToB, HandOff, WellFormed;
      var r: nat :| r < |ops| && !ops[r].write
        && var w := LastWrite(ops, ops[r].key, r); c'.loc[r] != if w < 0 then RecordA else c'.loc[w];
      hide ReadsFollowWrites, Finishes;
      MisledReader(c, c', r);
      hide NeverWritten;
      NoRunEnds(c', r);
    }
  }

  // ------------------------------------------------------------------ a stale row

  /** Lanes that write the number of the access, and a record that is newest on side two. */
  ghost predicate Telltale(c: Config, k: Key) {
    && (forall g: nat, seen: seq<Row>, i: nat :: c.job.lane(g, seen, i) == g) && WidthOf(c.job, k) > 0
    && c.begin.Tag(RecordCell(k, One)) < c.begin.Tag(RecordCell(k, Two)) < c.epoch
  }

  /** The first write of record k that is sent to B goes to side one, and stays there. */
  ghost predicate StaleAt(c: Config, m: Memory, k: Key, g: nat, p: nat) {
    if p <= g then m.Tag(RecordCell(k, One)) < m.Tag(RecordCell(k, Two)) < c.epoch
    else m.Tag(RecordCell(k, One)) == c.epoch && forall i: nat | i < WidthOf(c.job, k) ::
         m.WordAt(RecordCell(k, One), i) == g
  }

  ghost predicate FirstToB(c: Config, g: nat)
    requires |c.loc| == |c.job.ops| && g < |c.job.ops|
  {
    SentToB(c, g) && forall h: nat | h < g && SentToB(c, h) :: c.job.ops[h].key != c.job.ops[g].key
  }

  lemma {:induction false} OneMoreStale(c: Config, before: seq<nat>, g: nat, p: nat) returns (schedule: seq<nat>)
    requires Runnable(c) && p < |c.job.ops| && IsSchedule(c, before) && InOrderAt(c, Run(c, before), p)
    requires g < |c.job.ops| && FirstToB(c, g) && Telltale(c, c.job.ops[g].key)
    requires StaleAt(c, Run(c, before).mem, c.job.ops[g].key, g, p)
    ensures IsSchedule(c, schedule) && InOrderAt(c, Run(c, schedule), p + 1)
    ensures StaleAt(c, Run(c, schedule).mem, c.job.ops[g].key, g, p + 1)
  {
    var k := c.job.ops[g].key;
    assert Run(c, before).mem.Tag(RecordCell(k, Two)) <= c.epoch;
    hide InOrderAt, Run, Runnable, IsSchedule;
    if c.job.ops[p].write {
      schedule := WriteAccess(c, before, p);
      TagAfterWrite(c, Run(c, before).mem, Run(c, schedule).mem, p, RecordCell(k, One));
      TagAfterWrite(c, Run(c, before).mem, Run(c, schedule).mem, p, RecordCell(k, Two));
    } else {
      schedule := ReadAccess(c, before, p);
    }
  }

  lemma {:induction false} StaleSchedule(c: Config, g: nat, p: nat) returns (schedule: seq<nat>)
    requires Runnable(c) && p <= |c.job.ops| && g < |c.job.ops| && FirstToB(c, g) && Telltale(c, c.job.ops[g].key)
    ensures IsSchedule(c, schedule) && InOrderAt(c, Run(c, schedule), p)
    ensures StaleAt(c, Run(c, schedule).mem, c.job.ops[g].key, g, p)
    decreases p
  {
    hide InOrderAt, Runnable, FirstToB;
    if p == 0 {
      schedule := [];
      NothingDone(c);
    } else {
      hide Run, IsSchedule, StaleAt, Telltale;
      var before := StaleSchedule(c, g, p - 1);
      schedule := OneMoreStale(c, before, g, p - 1);
    }
  }

  lemma {:induction false} SerialIsLast(j: Job, db: Database, k: Key, w: nat)
    requires WellFormed(j) && w < |j.ops| && WritesAt(j.ops, k, w) && NoLaterWrite(j.ops, w)
    ensures SerialResult(j, db)(k) == SerialWrite(j, db, w)
  {
    hide SerialStore, SerialWrite;
    StartsInRange(j, NumUnits(j));
    StoreOfUnits(j, db, NumUnits(j), k);
    assert LastWrite(j.ops, k, |j.ops|) == w;
  }

  /** There is a run whose contents are not those of the serial run. */
  ghost predicate LeavesStaleRow(c: Config, k: Key)
    requires WellFormed(c.job) && |c.loc| == |c.job.ops|
  {
    exists schedule: seq<nat> :: Finishes(c, schedule)
      && Contents(Run(c, schedule).mem, c.job.width)(k) != SerialResult(c.job, Db(c))(k)
  }

  lemma {:induction false} FirstBIsStale(c: Config, g: nat, h: nat)
    requires Runnable(c) && g < h < |c.job.ops| && FirstToB(c, g) && SentToB(c, h) && NoLaterWrite(c.job.ops, h)
    requires c.job.ops[g].key == c.job.ops[h].key && Telltale(c, c.job.ops[g].key)
    ensures LeavesStaleRow(c, c.job.ops[g].key)
  {
    var k := c.job.ops[g].key;
    var schedule := StaleSchedule(c, g, |c.job.ops|);
    InOrderIsFinished(c, Run(c, schedule));
    assert Finishes(c, schedule);
    var m := Run(c, schedule).mem;
    assert BothTagged(c, m, k);
    hide InOrderAt, Run, Finished, ReadsFollowWrites;
    SerialIsLast(c.job, Db(c), k, h);
    assert Contents(m, c.job.width)(k)[0] == m.WordAt(RecordCell(k, One), 0) == g;
    assert SerialWrite(c.job, Db(c), h)[0] == h;
    hide Contents, SerialResult, SerialWrite;
  }

  lemma {:induction false} FindFirstToB(c: Config, g: nat, n: nat) returns (f: nat)
    requires |c.loc| == |c.job.ops| && g < n <= |c.job.ops| && SentToB(c, g)
    ensures f <= g && FirstToB(c, f) && c.job.ops[f].key == c.job.ops[g].key
    decreases g
  {
    if h: nat :| h < g && SentToB(c, h) && c.job.ops[h].key == c.job.ops[g].key {
      f := FindFirstToB(c, h, g);
    } else {
      f := g;
    }
  }

  /** With telltale rows and lanes, either no run ends or some run leaves a stale row. */
  lemma {:induction false} RerouteGoesWrong(c: Config, c': Config, g: nat)
    requires Ready(c) && Rerouted(c, c') && g < |c.job.ops| && SentToB(c', g) && !NoLaterWrite(c.job.ops, g)
    requires Telltale(c', c.job.ops[g].key)
    ensures (forall schedule: seq<nat> :: !Finishes(c', schedule)) || LeavesStaleRow(c', c.job.ops[g].key)
  {
    var ops := c.job.ops;
    if ReadsFollowWrites(ops, c'.loc) {
      RerouteIsRunnable(c, c');
      var h := LastOfKey(ops, g);
      assert c.loc[h] == RecordB && SentToB(c', h);
      var f := FindFirstToB(c', g, |ops|);
      hide Runnable, ReadsFollowWrites, Ready, Rerouted, Telltale, LeavesStaleRow;
      FirstBIsStale(c', f, h);
    } else {
      hide SlotsDistinct, LastWritesGoToB, HandOff, WellFormed;
      var r: nat :| r < |ops| && !ops[r].write
        && var w := LastWrite(ops, ops[r].key, r); c'.loc[r] != if w < 0 then RecordA else c'.loc[w];
      hide ReadsFollowWrites, LeavesStaleRow;
      MisledReader(c, c', r);
      hide NeverWritten, Finished;
      NoRunEnds(c', r);
    }
  }

  // ------------------------------------------------------------------ the Delivery shortcut

  /** The configuration with which a batch is really executed. */
  function Executed(txns: seq<Params>, c: Config): (c': Config)
    requires |c.loc| == |c.job.ops| && c.job.ops == ExecutedAccesses(All(txns, |txns|))
    ensures |c'.loc| == |c.job.ops| && Rerouted(c, c')
  {
    c.(loc := ExecutedLocs(txns, All(txns, |txns|), c.loc))
  }

  /** The shortcut works for exactly the batches in which nobody writes an order line after it was
      delivered, whatever the rows and the lanes are: there every run that ends leaves the serial
      contents, and otherwise either no run ends or some run leaves a memory that is no start for
      the next epoch. */
  lemma {:induction false} ShortcutWorksIff(txns: seq<Params>, c: Config)
    requires Ready(c) && c.job.ops == ExecutedAccesses(All(txns, |txns|))
    ensures Works(Executed(txns, c)) <==> DeliveredLast(txns)
  {
    hide Ready, Works, NoLaterWrite, All;
    var all := All(txns, |txns|);
    if DeliveredLast(txns) {
      ShortcutHolds(txns, c);
      assert Executed(txns, c) == c;
      CorrectPlanWorks(c);
    } else {
      var g: nat :| g < |all| && IsShortcut(txns, all[g]) && !NoLaterWrite(ExecutedAccesses(all), g);
      Shape(c);
      assert SentToB(Executed(txns, c), g);
      hide Executed;
      RerouteFails(c, Executed(txns, c), g);
    }
  }

  /** Where it does not work, the contents themselves go wrong for some rows and lanes: unless no run
      ends, some run leaves an order line other than the serial one. */
  lemma {:induction false} ShortcutLeavesStaleLine(txns: seq<Params>, c: Config, g: nat)
    requires Ready(c) && c.job.ops == ExecutedAccesses(All(txns, |txns|)) && g < |c.job.ops|
    requires IsShortcut(txns, All(txns, |txns|)[g]) && !NoLaterWrite(c.job.ops, g)
    requires Telltale(c, c.job.ops[g].key)
    ensures (forall schedule: seq<nat> :: !Finishes(Executed(txns, c), schedule))
            || LeavesStaleRow(Executed(txns, c), c.job.ops[g].key)
  {
    assert SentToB(Executed(txns, c), g);
    hide Ready, Executed, NoLaterWrite, All, Finishes, LeavesStaleRow;
    RerouteGoesWrong(c, Executed(txns, c), g);
  }
}
