/** Every interleaving of the units computes what running them one after the other computes. */
module SerialEquivalence {
  import opened Accesses
  import opened Execution

  // -------------------------------------------------------- where each access belongs

  ghost function SideA(c: Config, k: Key): Side {
    NewestSide(c.begin.Tag(RecordCell(k, One)), c.begin.Tag(RecordCell(k, Two)))
  }

  /** The cell of access g, fixed before the epoch starts. */
  ghost function Target(c: Config, g: nat): Cell
    requires Ready(c) && g < |c.job.ops|
  {
    var k := c.job.ops[g].key;
    match c.loc[g]
    case RecordA => RecordCell(k, SideA(c, k))
    case RecordB => RecordCell(k, Other(SideA(c, k)))
    case VersionSlot(slot) => VersionCell(k.table, slot)
  }

  lemma {:induction false} DistinctTargets(c: Config, g: nat, h: nat)
    requires Ready(c) && g < h < |c.job.ops| && c.job.ops[g].write && c.job.ops[h].write
    ensures Target(c, g) != Target(c, h)
  {
    assert c.job.ops[g].key == c.job.ops[h].key ==> WritesAt(c.job.ops, c.job.ops[g].key, h);
  }

  // ------------------------------------------------------------------- the invariant

  ghost predicate Done(c: Config, s: State, g: nat)
    requires Ready(c) && |s.units| == NumUnits(c.job) && g < |c.job.ops|
  {
    s.units[c.job.ops[g].unit].pc > g
  }

  /** A read may load once the write it follows is published. */
  ghost predicate Available(c: Config, s: State, g: nat)
    requires Ready(c) && |s.units| == NumUnits(c.job) && g < |c.job.ops|
  {
    var w := LastWrite(c.job.ops, c.job.ops[g].key, g);
    w < 0 || Done(c, s, w)
  }

  ghost predicate PhaseOk(c: Config, s: State, u: nat)
    requires Ready(c) && |s.units| == NumUnits(c.job) && u < |s.units|
  {
    var t := s.units[u];
    var g := t.pc;
    t.phase.Idle? ||
    (&& g < c.job.start[u + 1] && g < |c.job.ops|
     && t.phase.cell == Target(c, g)
     && match t.phase
        case Waiting(_) => !c.job.ops[g].write && c.loc[g] != RecordA
        case Loading(_, got) =>
          && !c.job.ops[g].write && Available(c, s, g)
          && |got| <= WidthOf(c.job, c.job.ops[g].key)
          && got <= SerialRead(c.job, Db(c), g)
        case Storing(cell, stored) =>
          && c.job.ops[g].write
          && stored <= WidthOf(c.job, c.job.ops[g].key)
          && forall i: nat | i < stored :: s.mem.WordAt(cell, i) == SerialWrite(c.job, Db(c), g)[i])
  }

  ghost predicate UnitOk(c: Config, s: State, u: nat)
    requires Ready(c) && |s.units| == NumUnits(c.job) && u < |s.units|
  {
    var t := s.units[u];
    && c.job.start[u] <= t.pc <= c.job.start[u + 1]
    && t.seen == SerialRun(c.job, Db(c), u, t.pc).seen
    && PhaseOk(c, s, u)
  }

  /** A published write is in its cell for good; an unpublished one has not touched the tag. */
  ghost predicate WriteOk(c: Config, s: State, g: nat)
    requires Ready(c) && |s.units| == NumUnits(c.job) && g < |c.job.ops|
  {
    var cell := Target(c, g);
    if Done(c, s, g) then
      && s.mem.Tag(cell) == c.epoch
      && forall i: nat | i < WidthOf(c.job, c.job.ops[g].key) ::
         s.mem.WordAt(cell, i) == SerialWrite(c.job, Db(c), g)[i]
    else
      s.mem.Tag(cell) == c.begin.Tag(cell)
  }

  ghost predicate Written(c: Config, cell: Cell)
    requires Ready(c)
  {
    exists g: nat :: g < |c.job.ops| && c.job.ops[g].write && Target(c, g) == cell
  }

  ghost predicate CellKept(c: Config, s: State, cell: Cell) {
    s.mem.Tag(cell) == c.begin.Tag(cell) && forall i: nat :: s.mem.WordAt(cell, i) == c.begin.WordAt(cell, i)
  }

  ghost predicate Inv(c: Config, s: State)
    requires Ready(c)
  {
    && |s.units| == NumUnits(c.job)
    && (forall u: nat | u < |s.units| :: UnitOk(c, s, u))
    && (forall g: nat | g < |c.job.ops| && c.job.ops[g].write :: WriteOk(c, s, g))
    && (forall cell | !Written(c, cell) :: CellKept(c, s, cell))
  }

  // ------------------------------------------------------- the two sides of a record

  lemma BeginTags(c: Config, cell: Cell)
    requires Ready(c)
    ensures c.begin.Tag(cell) < c.epoch
  {}

  lemma {:induction false} SideAIsKept(c: Config, s: State, k: Key)
    requires Ready(c) && Inv(c, s)
    ensures CellKept(c, s, RecordCell(k, SideA(c, k)))
  {
    assert !Written(c, RecordCell(k, SideA(c, k)));
  }

  lemma {:induction false} TagIsBeginOrEpoch(c: Config, s: State, cell: Cell)
    requires Ready(c) && Inv(c, s)
    ensures s.mem.Tag(cell) == c.begin.Tag(cell) || s.mem.Tag(cell) == c.epoch
  {
    if Written(c, cell) {
      var g: nat :| g < |c.job.ops| && c.job.ops[g].write && Target(c, g) == cell;
      assert WriteOk(c, s, g);
    } else {
      assert CellKept(c, s, cell);
    }
  }

  /** Before, during and after the record B write, all readers and the writer agree on which
      side is A and which is B, and a reader of B is let through only when B is published. */
  lemma {:induction false} SidesAgree(c: Config, s: State, k: Key)
    requires Ready(c) && Inv(c, s)
    ensures var v1, v2 := s.mem.Tag(RecordCell(k, One)), s.mem.Tag(RecordCell(k, Two));
            var b := Other(SideA(c, k));
            && SelectA(v1, v2, c.epoch) == SideA(c, k)
            && SelectB(v1, v2, c.epoch) == (b, s.mem.Tag(RecordCell(k, b)) != c.epoch)
            && (s.mem.Tag(RecordCell(k, b)) != c.epoch ==> SelectWrite(v1, v2) == b)
  {
    SideAIsKept(c, s, k);
    BeginTags(c, RecordCell(k, One));
    BeginTags(c, RecordCell(k, Two));
    TagIsBeginOrEpoch(c, s, RecordCell(k, Other(SideA(c, k))));
  }

  // ----------------------------------------------------------------- reading is right

  lemma {:induction false} TargetOfRead(c: Config, g: nat)
    requires Ready(c) && g < |c.job.ops| && !c.job.ops[g].write
    ensures var w := LastWrite(c.job.ops, c.job.ops[g].key, g);
            if w < 0 then c.loc[g] == RecordA else c.loc[g] != RecordA && Target(c, g) == Target(c, w)
  {}

  /** A tag of this epoch on a read's cell means that the write it follows is published. */
  lemma {:induction false} TagMakesAvailable(c: Config, s: State, g: nat)
    requires Ready(c) && Inv(c, s) && g < |c.job.ops| && !c.job.ops[g].write
    ensures c.loc[g] == RecordA ==> Available(c, s, g)
    ensures c.loc[g] != RecordA ==> (s.mem.Tag(Target(c, g)) == c.epoch <==> Available(c, s, g))
  {
    TargetOfRead(c, g);
    var w := LastWrite(c.job.ops, c.job.ops[g].key, g);
    if w >= 0 {
      assert WriteOk(c, s, w);
      BeginTags(c, Target(c, w));
    }
  }

  /** An available read finds, word by word, the row of the serial run. */
  lemma {:induction false} LoadsSerialWord(c: Config, s: State, g: nat, i: nat)
    requires Ready(c) && Inv(c, s) && g < |c.job.ops| && !c.job.ops[g].write && Available(c, s, g)
    requires i < WidthOf(c.job, c.job.ops[g].key)
    ensures |SerialRead(c.job, Db(c), g)| == WidthOf(c.job, c.job.ops[g].key)
    ensures s.mem.WordAt(Target(c, g), i) == SerialRead(c.job, Db(c), g)[i]
  {
    var k := c.job.ops[g].key;
    TargetOfRead(c, g);
    StartsInRange(c.job, c.job.ops[g].unit + 1);
    StoreIsLastWrite(c.job, Db(c), c.job.ops[g].unit, g, k);
    var w := LastWrite(c.job.ops, k, g);
    if w < 0 {
      SideAIsKept(c, s, k);
    } else {
      assert WriteOk(c, s, w);
    }
  }

  // -------------------------------------------------------- every step keeps the invariant

  lemma {:induction false} InitialInv(c: Config)
    requires Ready(c)
    ensures Inv(c, Initial(c))
  {
    var s := Initial(c);
    forall g: nat | g < |c.job.ops| && c.job.ops[g].write ensures WriteOk(c, s, g) {
      assert c.job.start[c.job.ops[g].unit] <= g;
    }
  }

  ghost predicate DoneGrows(c: Config, s: State, s': State)
    requires Ready(c) && |s.units| == |s'.units| == NumUnits(c.job)
  {
    forall g: nat | g < |c.job.ops| && Done(c, s, g) :: Done(c, s', g)
  }

  ghost predicate KeepsOthersCells(c: Config, s: State, s': State, u: nat)
    requires Ready(c)
  {
    forall g: nat, i: nat | g < |c.job.ops| && c.job.ops[g].write && c.job.ops[g].unit != u ::
      s'.mem.WordAt(Target(c, g), i) == s.mem.WordAt(Target(c, g), i)
  }

  /** What the other units see of a step of unit u: the cells of their accesses are untouched. */
  lemma {:induction false} OthersKept(c: Config, s: State, s': State, u: nat, v: nat)
    requires Ready(c) && Inv(c, s) && u < NumUnits(c.job) && v < NumUnits(c.job) && u != v
    requires |s'.units| == |s.units| && s'.units[v] == s.units[v]
    requires DoneGrows(c, s, s') && KeepsOthersCells(c, s, s', u)
    ensures UnitOk(c, s', v)
  {
    assert UnitOk(c, s, v);
    var t := s.units[v];
    if t.phase.Storing? {
      OwnerIsUnique(c.job, v, t.pc);
    }
  }

  /** A step that leaves memory alone keeps everything but, perhaps, what is said of its unit. */
  lemma {:induction false} QuietStepKeepsRest(c: Config, s: State, s': State, u: nat)
    requires Ready(c) && Inv(c, s) && u < NumUnits(c.job)
    requires s'.mem == s.mem && |s'.units| == |s.units|
    requires forall v: nat | v < |s.units| && v != u :: s'.units[v] == s.units[v]
    requires s'.units[u].pc == s.units[u].pc ||
             (s'.units[u].pc == s.units[u].pc + 1 <= c.job.start[u + 1] && !c.job.ops[s.units[u].pc].write)
    requires UnitOk(c, s', u)
    ensures Inv(c, s')
  {
    hide PlanOk, HandOff, SerialRun, SerialWrite, Target;
    assert DoneGrows(c, s, s') && KeepsOthersCells(c, s, s', u);
    forall v: nat | v < NumUnits(c.job) && v != u ensures UnitOk(c, s', v) { OthersKept(c, s, s', u, v); }
    forall h: nat | h < |c.job.ops| && c.job.ops[h].write ensures WriteOk(c, s', h) { assert WriteOk(c, s, h); }
    forall cell | !Written(c, cell) ensures CellKept(c, s', cell) { assert CellKept(c, s, cell); }
  }

  lemma Shape(c: Config)
    requires Ready(c)
    ensures |c.loc| == |c.job.ops| && |c.job.start| > 0
  {}

  lemma WriteGoesNotToA(c: Config, g: nat)
    requires Ready(c) && g < |c.job.ops| && c.job.ops[g].write
    ensures c.loc[g] != RecordA
  {}

  lemma {:induction false} SelectKeepsInv(c: Config, s: State, u: nat)
    requires Ready(c) && Inv(c, s) && u < NumUnits(c.job)
    requires s.units[u].pc < c.job.start[u + 1] && s.units[u].phase.Idle?
    ensures Inv(c, Step(c, s, u))
  {
    hide PlanOk, HandOff, SerialRun, SerialWrite, SerialRead;
    Shape(c);
    var s', g := Step(c, s, u), s.units[u].pc;
    assert UnitOk(c, s, u);
    StartsInRange(c.job, u + 1);
    OwnerIsUnique(c.job, u, g);
    SidesAgree(c, s, c.job.ops[g].key);
    if c.job.ops[g].write {
      assert WriteOk(c, s, g);
      BeginTags(c, Target(c, g));
      WriteGoesNotToA(c, g);
    } else {
      TagMakesAvailable(c, s, g);
    }
    QuietStepKeepsRest(c, s, s', u);
  }

  lemma {:induction false} WaitKeepsInv(c: Config, s: State, u: nat)
    requires Ready(c) && Inv(c, s) && u < NumUnits(c.job)
    requires s.units[u].pc < c.job.start[u + 1] && s.units[u].phase.Waiting?
    ensures Inv(c, Step(c, s, u))
  {
    hide PlanOk, HandOff, SerialRun, SerialWrite, SerialRead;
    Shape(c);
    assert UnitOk(c, s, u);
    TagMakesAvailable(c, s, s.units[u].pc);
    QuietStepKeepsRest(c, s, Step(c, s, u), u);
  }

  lemma {:induction false} LoadKeepsInv(c: Config, s: State, u: nat)
    requires Ready(c) && Inv(c, s) && u < NumUnits(c.job)
    requires s.units[u].pc < c.job.start[u + 1] && s.units[u].phase.Loading?
    ensures Inv(c, Step(c, s, u))
  {
    var s', g := Step(c, s, u), s.units[u].pc;
    assert UnitOk(c, s, u);
    StartsInRange(c.job, u + 1);
    OwnerIsUnique(c.job, u, g);
    if |s.units[u].phase.got| < WidthOf(c.job, c.job.ops[g].key) {
      LoadWordIsOk(c, s, u, g);
    } else {
      FinishLoadIsOk(c, s, u, g);
    }
    hide PlanOk, HandOff, SerialRun, Target;
    QuietStepKeepsRest(c, s, s', u);
  }

  /** Unit u is at access g. */
  ghost predicate AtAccess(c: Config, s: State, u: nat, g: nat) {
    && |c.job.start| == |s.units| + 1 && |c.loc| == |c.job.ops| && u < |s.units|
    && g == s.units[u].pc < c.job.start[u + 1] && g < |c.job.ops| && c.job.ops[g].unit == u
  }

  lemma {:induction false} LoadWordIsOk(c: Config, s: State, u: nat, g: nat)
    requires AtAccess(c, s, u, g) && s.units[u].phase.Loading?
    requires |s.units[u].phase.got| < WidthOf(c.job, c.job.ops[g].key)
    requires Ready(c) && Inv(c, s)
    ensures UnitOk(c, Step(c, s, u), u)
  {
    hide PlanOk, HandOff, SerialRun, SerialRead, Target;
    assert UnitOk(c, s, u) && WellFormed(c.job);
    hide Inv;
    LoadsSerialWord(c, s, g, |s.units[u].phase.got|);
    var s', got := Step(c, s, u), s.units[u].phase.got;
    PrefixGrows(got, SerialRead(c.job, Db(c), g), s.mem.WordAt(Target(c, g), |got|));
    assert s'.units[u] == s.units[u].(phase := Loading(Target(c, g), got + [s.mem.WordAt(Target(c, g), |got|)]));
  }

  lemma PrefixGrows(got: Row, row: Row, w: Word)
    requires got <= row && |got| < |row| && row[|got|] == w
    ensures got + [w] <= row
  {}

  lemma {:induction false} FinishLoadIsOk(c: Config, s: State, u: nat, g: nat)
    requires AtAccess(c, s, u, g) && s.units[u].phase.Loading?
    requires |s.units[u].phase.got| >= WidthOf(c.job, c.job.ops[g].key)
    requires Ready(c) && Inv(c, s)
    ensures UnitOk(c, Step(c, s, u), u)
  {
    hide Step, PlanOk, HandOff, SerialRun, Target, SerialRead, Inv, UnitOk, Available, WellFormed;
    assert c.job.start[u + 1] <= |c.job.ops| by { StartsInRange(c.job, u + 1); }
    LoadedRow(c, s, u, g);
    SerialReadStep(c, u, g);
    FinishedLoad(c, s, u, g);
    IdleIsOk(c, Step(c, s, u), u);
  }

  lemma {:induction false} LoadedRow(c: Config, s: State, u: nat, g: nat)
    requires AtAccess(c, s, u, g) && s.units[u].phase.Loading?
    requires |s.units[u].phase.got| >= WidthOf(c.job, c.job.ops[g].key)
    requires Ready(c) && Inv(c, s)
    ensures c.job.start[u] <= g && !c.job.ops[g].write
    ensures s.units[u].seen == SerialRun(c.job, Db(c), u, g).seen && s.units[u].phase.got == SerialRead(c.job, Db(c), g)
  {
    assert UnitOk(c, s, u);
    hide PlanOk, HandOff, SerialRun, Target, SerialRead, Inv, Available, WellFormed;
    FullRowIsSerial(c, s, g, s.units[u].phase.got);
  }

  lemma {:induction false} FinishedLoad(c: Config, s: State, u: nat, g: nat)
    requires AtAccess(c, s, u, g) && s.units[u].phase.Loading?
    requires |s.units[u].phase.got| >= WidthOf(c.job, c.job.ops[g].key)
    ensures |Step(c, s, u).units| == |s.units|
    ensures Step(c, s, u).units[u] == UnitState(g + 1, Idle, s.units[u].seen + [s.units[u].phase.got])
  {}

  lemma {:induction false} IdleIsOk(c: Config, s: State, u: nat)
    requires Ready(c) && |s.units| == NumUnits(c.job) && u < |s.units| && s.units[u].phase.Idle?
    requires c.job.start[u] <= s.units[u].pc <= c.job.start[u + 1]
    requires s.units[u].pc <= |c.job.ops| && s.units[u].seen == SerialRun(c.job, Db(c), u, s.units[u].pc).seen
    ensures UnitOk(c, s, u)
  {
    hide PlanOk, HandOff, SerialRun, WellFormed;
  }

  lemma {:induction false} SerialReadStep(c: Config, u: nat, g: nat)
    requires Ready(c) && u < NumUnits(c.job) && c.job.start[u] <= g < c.job.start[u + 1] <= |c.job.ops|
    requires c.job.ops[g].unit == u && !c.job.ops[g].write
    ensures SerialRun(c.job, Db(c), u, g + 1).seen == SerialRun(c.job, Db(c), u, g).seen + [SerialRead(c.job, Db(c), g)]
  {}

  lemma {:induction false} FullRowIsSerial(c: Config, s: State, g: nat, got: Row)
    requires Ready(c) && Inv(c, s) && g < |c.job.ops| && !c.job.ops[g].write && Available(c, s, g)
    requires got <= SerialRead(c.job, Db(c), g) && |got| == WidthOf(c.job, c.job.ops[g].key)
    ensures got == SerialRead(c.job, Db(c), g)
  {
    if |got| > 0 {
      LoadsSerialWord(c, s, g, 0);
    } else {
      StartsInRange(c.job, c.job.ops[g].unit + 1);
      StoreIsLastWrite(c.job, Db(c), c.job.ops[g].unit, g, c.job.ops[g].key);
    }
  }

  /** A step that changes only the cell of its own write keeps everything said of the rest. */
  lemma {:induction false} StoreStepKeepsRest(c: Config, s: State, s': State, u: nat, g: nat)
    requires Ready(c) && Inv(c, s) && u < NumUnits(c.job) && g < |c.job.ops|
    requires c.job.ops[g].write && c.job.ops[g].unit == u && s.units[u].pc == g
    requires |s'.units| == |s.units|
    requires forall v: nat | v < |s.units| && v != u :: s'.units[v] == s.units[v]
    requires s'.units[u].pc == g || s'.units[u].pc == g + 1
    requires forall cell | cell != Target(c, g) :: s'.mem.Tag(cell) == s.mem.Tag(cell)
    requires forall cell, i: nat | cell != Target(c, g) :: s'.mem.WordAt(cell, i) == s.mem.WordAt(cell, i)
    requires UnitOk(c, s', u) && WriteOk(c, s', g)
    ensures Inv(c, s')
  {
    hide PlanOk, HandOff, SerialRun, SerialWrite, Target;
    forall h: nat | h < |c.job.ops| && c.job.ops[h].write && h != g
      ensures Target(c, h) != Target(c, g) && Done(c, s', h) == Done(c, s, h)
    {
      if h < g { DistinctTargets(c, h, g); } else { DistinctTargets(c, g, h); }
    }
    assert DoneGrows(c, s, s') && KeepsOthersCells(c, s, s', u);
    forall v: nat | v < NumUnits(c.job) && v != u ensures UnitOk(c, s', v) { OthersKept(c, s, s', u, v); }
    forall h: nat | h < |c.job.ops| && c.job.ops[h].write && h != g
           ensures WriteOk(c, s', h) { assert WriteOk(c, s, h); }
    forall cell | !Written(c, cell) ensures CellKept(c, s', cell) { assert CellKept(c, s, cell); }
  }

  lemma {:induction false} StoreKeepsInv(c: Config, s: State, u: nat)
    requires Ready(c) && Inv(c, s) && u < NumUnits(c.job)
    requires s.units[u].pc < c.job.start[u + 1] && s.units[u].phase.Storing?
    ensures Inv(c, Step(c, s, u))
  {
    hide PlanOk, HandOff, SerialRun, SerialWrite, Target;
    Shape(c);
    var s', g := Step(c, s, u), s.units[u].pc;
    assert UnitOk(c, s, u);
    StartsInRange(c.job, u + 1);
    OwnerIsUnique(c.job, u, g);
    assert WriteOk(c, s, g);
    if s'.units[u].pc == g {
      StoreWordIsOk(c, s, u, g);
    } else {
      PublishIsOk(c, s, u, g);
    }
    StoreStepKeepsRest(c, s, s', u, g);
  }

  lemma {:induction false} StoreWordIsOk(c: Config, s: State, u: nat, g: nat)
    requires AtAccess(c, s, u, g) && s.units[u].phase.Storing?
    requires s.units[u].phase.stored < WidthOf(c.job, c.job.ops[g].key)
    requires Ready(c) && Inv(c, s)
    ensures UnitOk(c, Step(c, s, u), u) && WriteOk(c, Step(c, s, u), g)
  {
    hide PlanOk, HandOff, SerialRun, Target;
    assert UnitOk(c, s, u) && WriteOk(c, s, g);
  }

  lemma {:induction false} PublishIsOk(c: Config, s: State, u: nat, g: nat)
    requires AtAccess(c, s, u, g) && s.units[u].phase.Storing?
    requires s.units[u].phase.stored == WidthOf(c.job, c.job.ops[g].key)
    requires Ready(c) && Inv(c, s)
    ensures UnitOk(c, Step(c, s, u), u) && WriteOk(c, Step(c, s, u), g)
  {
    hide PlanOk, HandOff, Target, SerialRun, SerialWrite;
    assert UnitOk(c, s, u);
    SerialWriteStep(c, u, g);
  }

  lemma {:induction false} SerialWriteStep(c: Config, u: nat, g: nat)
    requires Ready(c) && u < NumUnits(c.job) && c.job.start[u] <= g < c.job.start[u + 1] <= |c.job.ops|
    requires c.job.ops[g].write
    ensures SerialRun(c.job, Db(c), u, g + 1).seen == SerialRun(c.job, Db(c), u, g).seen
  {}

  lemma {:induction false} StepKeepsInv(c: Config, s: State, u: nat)
    requires Ready(c) && Inv(c, s) && u < NumUnits(c.job)
    ensures Inv(c, Step(c, s, u))
  {
    assert UnitOk(c, s, u);
    if s.units[u].pc < c.job.start[u + 1] {
      match s.units[u].phase
      case Idle => SelectKeepsInv(c, s, u);
      case Storing(_, _) => StoreKeepsInv(c, s, u);
      case Waiting(_) => WaitKeepsInv(c, s, u);
      case Loading(_, _) => LoadKeepsInv(c, s, u);
    }
  }

  lemma {:induction false} RunKeepsInv(c: Config, schedule: seq<nat>)
    requires Ready(c) && forall i | 0 <= i < |schedule| :: schedule[i] < NumUnits(c.job)
    ensures Inv(c, Run(c, schedule))
  {
    if schedule == [] {
      InitialInv(c);
    } else {
      RunKeepsInv(c, schedule[..|schedule| - 1]);
      StepKeepsInv(c, Run(c, schedule[..|schedule| - 1]), schedule[|schedule| - 1]);
    }
  }

  // -------------------------------------------------------------------- the theorems

  /** Whatever the interleaving, every unit has read so far what it reads in the serial run. */
  lemma {:induction false} ReadsAreSerial(c: Config, schedule: seq<nat>, u: nat)
    requires Ready(c) && u < NumUnits(c.job)
    requires forall i | 0 <= i < |schedule| :: schedule[i] < NumUnits(c.job)
    ensures var t := Run(c, schedule).units[u];
            && c.job.start[u] <= t.pc <= c.job.start[u + 1]
            && t.seen == SerialRun(c.job, Db(c), u, t.pc).seen
  {
    RunKeepsInv(c, schedule);
    assert UnitOk(c, Run(c, schedule), u);
  }

  ghost predicate Finished(c: Config, s: State)
    requires |c.job.start| == |s.units| + 1
  {
    forall u: nat | u < |s.units| :: s.units[u].pc == c.job.start[u + 1]
  }

  lemma {:induction false} FinishedIsDone(c: Config, s: State, g: nat)
    requires Ready(c) && Inv(c, s) && Finished(c, s) && g < |c.job.ops|
    ensures Done(c, s, g)
  {}

  lemma {:induction false} FinalStore(c: Config, k: Key)
    requires Ready(c)
    ensures var w := LastWrite(c.job.ops, k, |c.job.ops|);
            SerialResult(c.job, Db(c))(k) == if w < 0 then Db(c)(k) else SerialWrite(c.job, Db(c), w)
  {
    var n := NumUnits(c.job);
    if n > 0 {
      StoreIsLastWrite(c.job, Db(c), n - 1, |c.job.ops|, k);
    }
  }

  /** At the end of the epoch the newest side of every record holds the serial result. */
  lemma {:induction false} FinalContents(c: Config, s: State, k: Key)
    requires Ready(c) && Inv(c, s) && Finished(c, s)
    ensures Contents(s.mem, c.job.width)(k) == SerialResult(c.job, Db(c))(k)
  {
    var w := LastWrite(c.job.ops, k, |c.job.ops|);
    var a, b := RecordCell(k, SideA(c, k)), RecordCell(k, Other(SideA(c, k)));
    FinalStore(c, k);
    SideAIsKept(c, s, k);
    BeginTags(c, a);
    if w >= 0 {
      assert NoLaterWrite(c.job.ops, w);
      FinishedIsDone(c, s, w);
      assert WriteOk(c, s, w);
      assert NewestCell(s.mem, k) == b;
    } else {
      NoWriteNoCell(c, k);
      assert CellKept(c, s, b);
      assert NewestCell(s.mem, k) == a == NewestCell(c.begin, k);
    }
    assert Contents(s.mem, c.job.width)(k) == s.mem.RowAt(NewestCell(s.mem, k), c.job.width(k.table));
  }

  lemma {:induction false} NoWriteNoCell(c: Config, k: Key)
    requires Ready(c) && LastWrite(c.job.ops, k, |c.job.ops|) < 0
    ensures !Written(c, RecordCell(k, Other(SideA(c, k))))
  {
    if g: nat :| g < |c.job.ops| && c.job.ops[g].write && Target(c, g) == RecordCell(k, Other(SideA(c, k))) {
      assert WritesAt(c.job.ops, k, g);
    }
  }

  /** The written side becomes the newest: the next epoch can start. */
  lemma {:induction false} FinalHandOff(c: Config, s: State)
    requires Ready(c) && Inv(c, s)
    ensures HandOff(s.mem, c.epoch + 1)
  {
    forall cell | cell in s.mem.tags ensures s.mem.tags[cell] < c.epoch + 1 {
      TagIsBeginOrEpoch(c, s, cell);
      BeginTags(c, cell);
      assert s.mem.Tag(cell) == s.mem.tags[cell];
    }
    forall k | s.mem.Tag(RecordCell(k, One)) == s.mem.Tag(RecordCell(k, Two))
      ensures s.mem.Tag(RecordCell(k, One)) == 0
    {
      SideAIsKept(c, s, k);
      BeginTags(c, RecordCell(k, SideA(c, k)));
      TagIsBeginOrEpoch(c, s, RecordCell(k, Other(SideA(c, k))));
    }
  }

  /** Serial equivalence: for every batch with a correct plan and every interleaving that
      finishes, memory holds what running the units in order leaves, and is ready for the next
      epoch. */
  lemma {:induction false} EpochIsSerial(c: Config, schedule: seq<nat>)
    requires Ready(c) && forall i | 0 <= i < |schedule| :: schedule[i] < NumUnits(c.job)
    requires Finished(c, Run(c, schedule))
    ensures HandOff(Run(c, schedule).mem, c.epoch + 1)
    ensures forall k :: Contents(Run(c, schedule).mem, c.job.width)(k) == SerialResult(c.job, Db(c))(k)
  {
    RunKeepsInv(c, schedule);
    FinalHandOff(c, Run(c, schedule));
    forall k ensures Contents(Run(c, schedule).mem, c.job.width)(k) == SerialResult(c.job, Db(c))(k) {
      FinalContents(c, Run(c, schedule), k);
    }
  }
}
