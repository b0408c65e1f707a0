/** The run that lets the units go one after the other.  It ends under weaker conditions than the
    other runs need: every read only has to be sent to where the write before it was sent. */
module InOrder {
  import opened Accesses
  import opened Execution
  import opened SerialEquivalence
  import opened Tickets

  ghost predicate Runnable(c: Config) {
    && WellFormed(c.job) && |c.loc| == |c.job.ops| && c.epoch > 0 && ReadsFollowWrites(c.job.ops, c.loc)
    && (forall g: nat | g < |c.job.ops| && c.job.ops[g].write :: c.loc[g] != RecordA)
    && (forall cell :: c.begin.Tag(cell) <= c.epoch)
  }

  /** Where unit u is when the first p accesses have been made in order. */
  function PcAt(c: Config, u: nat, p: nat): nat
    requires u + 1 < |c.job.start|
  {
    if p < c.job.start[u] then c.job.start[u] else if p > c.job.start[u + 1] then c.job.start[u + 1] else p
  }

  /** Write g has been published where it was sent. */
  ghost predicate Published(c: Config, m: Memory, g: nat)
    requires |c.loc| == |c.job.ops| && g < |c.job.ops|
  {
    var k := c.job.ops[g].key;
    match c.loc[g]
    case RecordB => m.Tag(RecordCell(k, One)) == c.epoch || m.Tag(RecordCell(k, Two)) == c.epoch
    case VersionSlot(slot) => m.Tag(VersionCell(k.table, slot)) == c.epoch
    case RecordA => false
  }

  predicate SentToB(c: Config, g: nat)
    requires |c.loc| == |c.job.ops| && g < |c.job.ops|
  {
    c.job.ops[g].write && c.loc[g] == RecordB
  }

  /** Both sides of the record have this epoch's tag. */
  ghost predicate BothTagged(c: Config, m: Memory, k: Key) {
    m.Tag(RecordCell(k, One)) == c.epoch == m.Tag(RecordCell(k, Two))
  }

  ghost predicate TagsAfter(c: Config, m: Memory, p: nat)
    requires |c.loc| == |c.job.ops| && p <= |c.job.ops|
  {
    && (forall cell :: m.Tag(cell) <= c.epoch)
    && (forall g: nat | g < p && c.job.ops[g].write :: Published(c, m, g))
    && (forall g: nat, h: nat | g < h < p && SentToB(c, g) && SentToB(c, h) && c.job.ops[g].key == c.job.ops[h].key ::
          BothTagged(c, m, c.job.ops[g].key))
  }

  ghost predicate InOrderAt(c: Config, s: State, p: nat)
    requires WellFormed(c.job) && |c.loc| == |c.job.ops| && p <= |c.job.ops|
  {
    && |s.units| == NumUnits(c.job) && TagsAfter(c, s.mem, p)
    && forall u: nat | u < |s.units| :: s.units[u].pc == PcAt(c, u, p) && s.units[u].phase == Idle
  }

  // ------------------------------------------------------------------ one access

  lemma {:induction false} RunStep(c: Config, schedule: seq<nat>, u: nat)
    requires |c.loc| == |c.job.ops| && |c.job.start| > 0 && IsSchedule(c, schedule) && u < NumUnits(c.job)
    ensures IsSchedule(c, schedule + [u])
    ensures Run(c, schedule + [u]) == Step(c, Run(c, schedule), u)
  {
    hide Step;
    assert (schedule + [u])[..|schedule|] == schedule;
  }

  /** Unit u is at its access g. */
  ghost predicate At(c: Config, s: State, u: nat, g: nat, phase: Phase) {
    && |c.loc| == |c.job.ops| && |c.job.start| == |s.units| + 1 && u < |s.units|
    && g < |c.job.ops| && g < c.job.start[u + 1] && s.units[u].pc == g && s.units[u].phase == phase
  }

  /** Unit u has completed access g. */
  ghost predicate Completed(s: State, s': State, u: nat, g: nat) {
    && |s'.units| == |s.units| && u < |s.units| && s'.units[u].pc == g + 1 && s'.units[u].phase == Idle
    && forall v: nat | v < |s.units| && v != u :: s'.units[v] == s.units[v]
  }

  lemma {:induction false} LoadAll(c: Config, before: seq<nat>, u: nat, g: nat, cell: Cell, got: Row)
    returns (schedule: seq<nat>)
    requires |c.loc| == |c.job.ops| && |c.job.start| > 0 && IsSchedule(c, before)
    requires At(c, Run(c, before), u, g, Loading(cell, got)) && !c.job.ops[g].write
    requires |got| <= WidthOf(c.job, c.job.ops[g].key)
    ensures IsSchedule(c, schedule) && Completed(Run(c, before), Run(c, schedule), u, g)
    ensures Run(c, schedule).mem == Run(c, before).mem
    decreases WidthOf(c.job, c.job.ops[g].key) - |got|
  {
    RunStep(c, before, u);
    hide Run, IsSchedule;
    if |got| < WidthOf(c.job, c.job.ops[g].key) {
      var w := Run(c, before).mem.WordAt(cell, |got|);
      schedule := LoadAll(c, before + [u], u, g, cell, got + [w]);
    } else {
      schedule := before + [u];
    }
  }

  /** What unit u stores in access g is in the first n words of the cell. */
  ghost predicate StoredIn(c: Config, s: State, u: nat, g: nat, cell: Cell, n: nat)
    requires u < |s.units|
  {
    forall i: nat | i < n :: s.mem.WordAt(cell, i) == c.job.lane(g, s.units[u].seen, i)
  }

  ghost predicate OnlyCellChanged(m: Memory, m': Memory, cell: Cell) {
    forall other: Cell, i: nat | other != cell :: m'.WordAt(other, i) == m.WordAt(other, i)
  }

  lemma {:induction false} StoreWord(c: Config, s: State, u: nat, g: nat, cell: Cell, stored: nat)
    requires At(c, s, u, g, Storing(cell, stored)) && c.job.ops[g].write && StoredIn(c, s, u, g, cell, stored)
    requires stored < WidthOf(c.job, c.job.ops[g].key)
    ensures var s' := Step(c, s, u);
            && At(c, s', u, g, Storing(cell, stored + 1)) && StoredIn(c, s', u, g, cell, stored + 1)
            && s'.mem.tags == s.mem.tags && OnlyCellChanged(s.mem, s'.mem, cell)
            && s'.units == s.units[u := s.units[u].(phase := Storing(cell, stored + 1))]
  {}

  lemma {:induction false} StoreAll(c: Config, before: seq<nat>, u: nat, g: nat, cell: Cell, stored: nat)
    returns (schedule: seq<nat>)
    requires |c.loc| == |c.job.ops| && |c.job.start| > 0 && IsSchedule(c, before)
    requires At(c, Run(c, before), u, g, Storing(cell, stored)) && c.job.ops[g].write
    requires stored <= WidthOf(c.job, c.job.ops[g].key) && StoredIn(c, Run(c, before), u, g, cell, stored)
    ensures IsSchedule(c, schedule) && Completed(Run(c, before), Run(c, schedule), u, g)
    ensures Run(c, schedule).mem.tags == Run(c, before).mem.tags[cell := c.epoch]
    ensures OnlyCellChanged(Run(c, before).mem, Run(c, schedule).mem, cell)
    ensures StoredIn(c, Run(c, schedule), u, g, cell, WidthOf(c.job, c.job.ops[g].key))
    decreases WidthOf(c.job, c.job.ops[g].key) - stored
  {
    RunStep(c, before, u);
    hide Run, IsSchedule;
    if stored < WidthOf(c.job, c.job.ops[g].key) {
      StoreWord(c, Run(c, before), u, g, cell, stored);
      hide Step;
      schedule := StoreAll(c, before + [u], u, g, cell, stored + 1);
    } else {
      schedule := before + [u];
    }
  }

  // ------------------------------------------------------------------ all accesses

  lemma {:induction false} NextPcs(c: Config, p: nat, u: nat)
    requires WellFormed(c.job) && p < |c.job.ops| && u < NumUnits(c.job)
    ensures PcAt(c, u, p + 1) == if u == c.job.ops[p].unit then p + 1 else PcAt(c, u, p)
    ensures u == c.job.ops[p].unit ==> PcAt(c, u, p) == p < c.job.start[u + 1]
  {
    var w := c.job.ops[p].unit;
    if u < w { assert c.job.start[u + 1] <= c.job.start[w]; }
    if w < u { assert c.job.start[w + 1] <= c.job.start[u]; }
  }

  lemma {:induction false} NextUnits(c: Config, s: State, s': State, p: nat)
    requires WellFormed(c.job) && |c.loc| == |c.job.ops| && p < |c.job.ops| && InOrderAt(c, s, p)
    requires Completed(s, s', c.job.ops[p].unit, p) && TagsAfter(c, s'.mem, p + 1)
    ensures InOrderAt(c, s', p + 1)
  {
    hide PcAt, WellFormed, TagsAfter;
    forall u: nat | u < |s'.units| ensures s'.units[u].pc == PcAt(c, u, p + 1) && s'.units[u].phase == Idle {
      NextPcs(c, p, u);
    }
  }

  /** Unit u's access p is next; where its read was sent has been published. */
  lemma {:induction false} AtTurn(c: Config, s: State, p: nat)
    requires Runnable(c) && p < |c.job.ops| && InOrderAt(c, s, p)
    ensures |c.job.start| == |s.units| + 1 && |c.loc| == |c.job.ops| && c.job.ops[p].unit < |s.units|
    ensures At(c, s, c.job.ops[p].unit, p, Idle)
    ensures c.job.ops[p].write ==> c.loc[p] != RecordA
    ensures !c.job.ops[p].write ==> c.loc[p] == RecordA || exists w: nat ::
              w < p && c.job.ops[w].key == c.job.ops[p].key && c.loc[w] == c.loc[p] && Published(c, s.mem, w)
  {
    NextPcs(c, p, c.job.ops[p].unit);
    var w := LastWrite(c.job.ops, c.job.ops[p].key, p);
    if !c.job.ops[p].write && w >= 0 { assert Published(c, s.mem, w); }
    hide PcAt, WellFormed, Published;
  }

  /** So the read is let through at once, or after it has looked at the tag. */
  lemma {:induction false} ReadSelects(c: Config, s: State, u: nat, p: nat) returns (cell: Cell)
    requires At(c, s, u, p, Idle) && !c.job.ops[p].write
    requires c.loc[p] == RecordA || exists w: nat ::
               w < p && c.job.ops[w].key == c.job.ops[p].key && c.loc[w] == c.loc[p] && Published(c, s.mem, w)
    ensures Step(c, s, u).mem == s.mem
    ensures forall v: nat | v < |s.units| && v != u :: Step(c, s, u).units[v] == s.units[v]
    ensures At(c, Step(c, s, u), u, p, Loading(cell, []))
            || (At(c, Step(c, s, u), u, p, Waiting(cell)) && s.mem.Tag(cell) == c.epoch)
  {
    if c.loc[p] != RecordA {
      var w: nat :| w < p && c.job.ops[w].key == c.job.ops[p].key && c.loc[w] == c.loc[p] && Published(c, s.mem, w);
    }
    cell := Step(c, s, u).units[u].phase.cell;
  }

  lemma WaitEnds(c: Config, s: State, u: nat, p: nat, cell: Cell)
    requires At(c, s, u, p, Waiting(cell)) && s.mem.Tag(cell) == c.epoch
    ensures Step(c, s, u).mem == s.mem && At(c, Step(c, s, u), u, p, Loading(cell, []))
    ensures forall v: nat | v < |s.units| && v != u :: Step(c, s, u).units[v] == s.units[v]
  {}

  /** The read's place has been published, so it is not held up. */
  lemma {:induction false} ReadBegins(c: Config, before: seq<nat>, p: nat) returns (schedule: seq<nat>, cell: Cell)
    requires Runnable(c) && p < |c.job.ops| && !c.job.ops[p].write && IsSchedule(c, before)
    requires InOrderAt(c, Run(c, before), p)
    ensures IsSchedule(c, schedule) && At(c, Run(c, schedule), c.job.ops[p].unit, p, Loading(cell, []))
    ensures Run(c, schedule).mem == Run(c, before).mem
    ensures forall v: nat | v < NumUnits(c.job) && v != c.job.ops[p].unit ::
              Run(c, schedule).units[v] == Run(c, before).units[v]
  {
    hide Run, Step, InOrderAt, WellFormed, ReadsFollowWrites, Published, At;
    var u := c.job.ops[p].unit;
    AtTurn(c, Run(c, before), p);
    cell := ReadSelects(c, Run(c, before), u, p);
    RunStep(c, before, u);
    schedule := before + [u];
    if !At(c, Run(c, schedule), u, p, Loading(cell, [])) {
      WaitEnds(c, Run(c, schedule), u, p, cell);
      RunStep(c, schedule, u);
      schedule := schedule + [u];
    }
  }

  lemma TagsAfterRead(c: Config, m: Memory, p: nat)
    requires |c.loc| == |c.job.ops| && p < |c.job.ops| && !c.job.ops[p].write && TagsAfter(c, m, p)
    ensures TagsAfter(c, m, p + 1)
  {
    hide Published, BothTagged;
  }

  lemma {:induction false} ReadAccess(c: Config, before: seq<nat>, p: nat) returns (schedule: seq<nat>)
    requires Runnable(c) && p < |c.job.ops| && !c.job.ops[p].write && IsSchedule(c, before)
    requires InOrderAt(c, Run(c, before), p)
    ensures IsSchedule(c, schedule) && InOrderAt(c, Run(c, schedule), p + 1)
    ensures Run(c, schedule).mem == Run(c, before).mem
  {
    var u := c.job.ops[p].unit;
    var begun, cell := ReadBegins(c, before, p);
    hide Run, IsSchedule, TagsAfter;
    schedule := LoadAll(c, begun, u, p, cell, []);
    TagsAfterRead(c, Run(c, before).mem, p);
    hide WellFormed, InOrderAt, At, ReadsFollowWrites;
    NextUnits(c, Run(c, before), Run(c, schedule), p);
  }

  /** Where the write goes when it is its turn. */
  function Target(c: Config, m: Memory, p: nat): Cell
    requires |c.loc| == |c.job.ops| && p < |c.job.ops|
  {
    SelectStore(m, c.job.ops[p].key, c.loc[p]).cell
  }

  lemma TagAfterWrite(c: Config, m: Memory, m': Memory, p: nat, cell: Cell)
    requires |c.loc| == |c.job.ops| && p < |c.job.ops| && m'.tags == m.tags[Target(c, m, p) := c.epoch]
    ensures m'.Tag(cell) == if cell == Target(c, m, p) then c.epoch else m.Tag(cell)
  {}

  lemma {:induction false} StaysPublished(c: Config, m: Memory, m': Memory, p: nat, g: nat)
    requires |c.loc| == |c.job.ops| && p < |c.job.ops| && m'.tags == m.tags[Target(c, m, p) := c.epoch]
    requires g < |c.job.ops| && Published(c, m, g)
    ensures Published(c, m', g)
  {
    var k := c.job.ops[g].key;
    TagAfterWrite(c, m, m', p, RecordCell(k, One));
    TagAfterWrite(c, m, m', p, RecordCell(k, Two));
    if c.loc[g].VersionSlot? { TagAfterWrite(c, m, m', p, VersionCell(k.table, c.loc[g].slot)); }
    hide Target;
  }

  lemma {:induction false} BecomesPublished(c: Config, m: Memory, m': Memory, p: nat)
    requires |c.loc| == |c.job.ops| && p < |c.job.ops| && m'.tags == m.tags[Target(c, m, p) := c.epoch]
    requires c.loc[p] != RecordA
    ensures Published(c, m', p)
  {
    TagAfterWrite(c, m, m', p, Target(c, m, p));
  }

  /** The second write that is sent to B tags the other side. */
  lemma {:induction false} BothBecomeTagged(c: Config, m: Memory, m': Memory, p: nat, g: nat)
    requires |c.loc| == |c.job.ops| && p < |c.job.ops| && m'.tags == m.tags[Target(c, m, p) := c.epoch]
    requires g < |c.job.ops| && SentToB(c, p) && SentToB(c, g) && c.job.ops[g].key == c.job.ops[p].key
    requires Published(c, m, g) && forall cell :: m.Tag(cell) <= c.epoch
    ensures BothTagged(c, m', c.job.ops[p].key)
  {
    var k := c.job.ops[p].key;
    TagAfterWrite(c, m, m', p, RecordCell(k, One));
    TagAfterWrite(c, m, m', p, RecordCell(k, Two));
  }

  lemma {:induction false} StaysTagged(c: Config, m: Memory, m': Memory, p: nat, k: Key)
    requires |c.loc| == |c.job.ops| && p < |c.job.ops| && m'.tags == m.tags[Target(c, m, p) := c.epoch]
    requires BothTagged(c, m, k)
    ensures BothTagged(c, m', k)
  {
    TagAfterWrite(c, m, m', p, RecordCell(k, One));
    TagAfterWrite(c, m, m', p, RecordCell(k, Two));
    hide Target;
  }

  lemma {:induction false} TagsAfterWrite(c: Config, m: Memory, m': Memory, p: nat)
    requires |c.loc| == |c.job.ops| && p < |c.job.ops| && c.loc[p] != RecordA && TagsAfter(c, m, p)
    requires m'.tags == m.tags[Target(c, m, p) := c.epoch]
    ensures TagsAfter(c, m', p + 1)
  {
    forall cell ensures m'.Tag(cell) <= c.epoch { TagAfterWrite(c, m, m', p, cell); }
    hide Target, BothTagged, Published;
    forall g: nat | g < p + 1 && c.job.ops[g].write ensures Published(c, m', g) {
      if g < p { StaysPublished(c, m, m', p, g); } else { BecomesPublished(c, m, m', p); }
    }
    forall g: nat, h: nat | g < h < p + 1 && SentToB(c, g) && SentToB(c, h) && c.job.ops[g].key == c.job.ops[h].key
      ensures BothTagged(c, m', c.job.ops[g].key)
    {
      if h < p { StaysTagged(c, m, m', p, c.job.ops[g].key); } else { BothBecomeTagged(c, m, m', p, g); }
    }
  }

  lemma WriteSelects(c: Config, s: State, u: nat, p: nat)
    requires At(c, s, u, p, Idle) && c.job.ops[p].write
    ensures Step(c, s, u).mem == s.mem && At(c, Step(c, s, u), u, p, Storing(Target(c, s.mem, p), 0))
    ensures Step(c, s, u).units == s.units[u := s.units[u].(phase := Storing(Target(c, s.mem, p), 0))]
    ensures StoredIn(c, Step(c, s, u), u, p, Target(c, s.mem, p), 0)
  {}

  lemma InOrderTags(c: Config, s: State, p: nat)
    requires WellFormed(c.job) && |c.loc| == |c.job.ops| && p <= |c.job.ops| && InOrderAt(c, s, p)
    ensures |s.units| == NumUnits(c.job) && TagsAfter(c, s.mem, p)
  {
    hide WellFormed, TagsAfter;
  }

  lemma {:induction false} WriteAccess(c: Config, before: seq<nat>, p: nat) returns (schedule: seq<nat>)
    requires Runnable(c) && p < |c.job.ops| && c.job.ops[p].write && IsSchedule(c, before)
    requires InOrderAt(c, Run(c, before), p)
    ensures IsSchedule(c, schedule) && InOrderAt(c, Run(c, schedule), p + 1)
    ensures OnlyCellChanged(Run(c, before).mem, Run(c, schedule).mem, Target(c, Run(c, before).mem, p))
    ensures Run(c, schedule).mem.tags == Run(c, before).mem.tags[Target(c, Run(c, before).mem, p) := c.epoch]
    ensures c.job.ops[p].unit < NumUnits(c.job)
    ensures StoredIn(c, Run(c, schedule), c.job.ops[p].unit, p, Target(c, Run(c, before).mem, p),
              WidthOf(c.job, c.job.ops[p].key))
  {
    hide Run, Step, InOrderAt, TagsAfter, WellFormed, ReadsFollowWrites, At, StoredIn;
    var u, m := c.job.ops[p].unit, Run(c, before).mem;
    AtTurn(c, Run(c, before), p);
    InOrderTags(c, Run(c, before), p);
    WriteSelects(c, Run(c, before), u, p);
    RunStep(c, before, u);
    schedule := StoreAll(c, before + [u], u, p, Target(c, m, p), 0);
    TagsAfterWrite(c, Run(c, before).mem, Run(c, schedule).mem, p);
    NextUnits(c, Run(c, before), Run(c, schedule), p);
  }

  lemma {:induction false} OneMoreInOrder(c: Config, before: seq<nat>, p: nat) returns (schedule: seq<nat>)
    requires Runnable(c) && p < |c.job.ops| && IsSchedule(c, before) && InOrderAt(c, Run(c, before), p)
    ensures IsSchedule(c, schedule) && InOrderAt(c, Run(c, schedule), p + 1)
  {
    hide InOrderAt, Run, Runnable, IsSchedule;
    if c.job.ops[p].write {
      schedule := WriteAccess(c, before, p);
    } else {
      schedule := ReadAccess(c, before, p);
    }
  }

  lemma NothingDone(c: Config)
    requires Runnable(c)
    ensures InOrderAt(c, Initial(c), 0)
  {
    hide ReadsFollowWrites;
  }

  /** The first p accesses, one after the other. */
  lemma {:induction false} InOrderSchedule(c: Config, p: nat) returns (schedule: seq<nat>)
    requires Runnable(c) && p <= |c.job.ops|
    ensures IsSchedule(c, schedule) && InOrderAt(c, Run(c, schedule), p)
    decreases p
  {
    hide InOrderAt, Runnable;
    if p == 0 {
      schedule := [];
      NothingDone(c);
    } else {
      hide Run, IsSchedule;
      var before := InOrderSchedule(c, p - 1);
      schedule := OneMoreInOrder(c, before, p - 1);
    }
  }

  /** At the end everybody is finished. */
  lemma {:induction false} InOrderIsFinished(c: Config, s: State)
    requires Runnable(c) && InOrderAt(c, s, |c.job.ops|)
    ensures |c.job.start| == |s.units| + 1 && Finished(c, s)
  {
    forall u: nat | u < |s.units| ensures s.units[u].pc == c.job.start[u + 1] {
      StartsInRange(c.job, u + 1);
    }
  }
}
