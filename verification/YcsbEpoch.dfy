/** A whole YCSB epoch: submission, planning and execution by ten concurrent pieces per
    transaction. */
module YcsbEpoch {
  import opened Accesses
  import opened Execution
  import opened Machine
  import opened Planner
  import opened PlannerKernels
  import opened Tables
  import opened YcsbSubmitter
  import opened DeviceExecution

  /** One access as the executing piece makes it: the record, and the member of its plan in
      which it looks for the location. */
  datatype Touch = Touch(record: nat, write: bool, field: PlanField)

  function EachField(record: nat, write: bool, field: nat -> PlanField): (ts: seq<Touch>)
    ensures |ts| == FIELDS && forall j: nat | j < FIELDS :: ts[j] == Touch(record * FIELDS + j, write, field(j))
  {
    seq(FIELDS, j requires 0 <= j < FIELDS => Touch(record * FIELDS + j, write, field(j)))
  }

  /** The kernel for tables with one record per field. */
  function SplitPiece(p: Param, i: nat): seq<Touch>
    requires |p.types| == |p.records| == |p.fields| == PIECES && i < PIECES
  {
    var field := p.records[i] * FIELDS + p.fields[i];
    match p.types[i]
    case READ => [Touch(field, false, ReadPlan_readLoc)]
    case FULL_READ => EachField(p.records[i], false, (j: nat) => FullReadPlan_readLocs(j))
    case UPDATE => [Touch(field, true, UpdatePlan_writeLoc)]
    case READ_MODIFY_WRITE => [Touch(field, false, RmwPlan_readLoc), Touch(field, true, RmwPlan_writeLoc)]
    case FULL_READ_MODIFY_WRITE =>
      EachField(p.records[i], false, (j: nat) => FullRmwPlan_readLocs(j)) + [Touch(field, true, FullRmwPlan_writeLoc)]
    case INSERT => EachField(p.records[i], true, (j: nat) => InsertFullPlan_writeLocs(j))
  }

  /** The kernel for tables with whole rows. */
  function NoSplitPiece(p: Param, i: nat): seq<Touch>
    requires |p.types| == |p.records| == |p.fields| == PIECES && i < PIECES
  {
    var record := p.records[i];
    match p.types[i]
    case READ | FULL_READ => [Touch(record, false, ReadPlan_readLoc)]
    case UPDATE => [Touch(record, false, CopyUpdatePlan_readLoc), Touch(record, true, CopyUpdatePlan_writeLoc)]
    case READ_MODIFY_WRITE | FULL_READ_MODIFY_WRITE =>
      [Touch(record, false, RmwPlan_readLoc), Touch(record, true, RmwPlan_writeLoc)]
    case INSERT => [Touch(record, true, InsertPlan_writeLoc)]
  }

  function Piece(split: bool, ps: seq<Param>, u: nat): seq<Touch>
    requires ParamsOk(ps) && u < PIECES * |ps|
  {
    if split then SplitPiece(ps[u / PIECES], u % PIECES) else NoSplitPiece(ps[u / PIECES], u % PIECES)
  }

  /** Plan completeness: a piece makes exactly the accesses submitted for it, in the same order,
      and looks for each location in the very word that the access names. */
  lemma {:induction false} PieceDoesWhatIsEmitted(split: bool, ps: seq<Param>, u: nat)
    requires ParamsOk(ps) && u < PIECES * |ps|
    ensures |Piece(split, ps, u)| == |PieceEmits(split, ps, u)|
    ensures forall j | 0 <= j < |Piece(split, ps, u)| ::
              PieceEmits(split, ps, u)[j] ==
              Op(Piece(split, ps, u)[j].record, u / PIECES, Piece(split, ps, u)[j].write,
                WordOf(u % PIECES, Piece(split, ps, u)[j].field))
  {}

  /** The records that operation i has to read and to write: with one record for each field those of the
      field or of all ten, otherwise the row, of which an UPDATE reads what it keeps. */
  ghost predicate HasToRead(split: bool, p: Param, i: nat, f: nat)
    requires |p.types| == |p.records| == |p.fields| == PIECES && i < PIECES
  {
    var t := p.types[i];
    if !split then t != INSERT && f == p.records[i]
    else if t == FULL_READ || t == FULL_READ_MODIFY_WRITE then f / FIELDS == p.records[i]
    else (t == READ || t == READ_MODIFY_WRITE) && f == p.records[i] * FIELDS + p.fields[i]
  }

  ghost predicate HasToWrite(split: bool, p: Param, i: nat, f: nat)
    requires |p.types| == |p.records| == |p.fields| == PIECES && i < PIECES
  {
    var t := p.types[i];
    if t == READ || t == FULL_READ then false
    else if !split then f == p.records[i]
    else if t == INSERT then f / FIELDS == p.records[i]
    else f == p.records[i] * FIELDS + p.fields[i]
  }

  ghost predicate TouchedBy(ts: seq<Touch>, f: nat, write: bool) {
    exists j: nat :: j < |ts| && ts[j].record == f && ts[j].write == write
  }

  lemma {:induction false} EachFieldTouched(record: nat, write: bool, field: nat -> PlanField, f: nat, w: bool)
    ensures TouchedBy(EachField(record, write, field), f, w) <==> w == write && f / FIELDS == record
  {
    var ts := EachField(record, write, field);
    if w == write && f / FIELDS == record {
      assert f == record * FIELDS + f % FIELDS;
      assert ts[f % FIELDS].record == f && ts[f % FIELDS].write == w;
    }
  }

  lemma TouchedByOne(a: Touch, f: nat, w: bool)
    ensures TouchedBy([a], f, w) <==> a.record == f && a.write == w
  {
    assert [a][0] == a;
  }

  lemma TouchedConcat(a: seq<Touch>, b: seq<Touch>, f: nat, w: bool)
    ensures TouchedBy(a + b, f, w) <==> TouchedBy(a, f, w) || TouchedBy(b, f, w)
  {
    if TouchedBy(a, f, w) {
      var j: nat :| j < |a| && a[j].record == f && a[j].write == w;
      assert (a + b)[j] == a[j];
    }
    if TouchedBy(b, f, w) {
      var j: nat :| j < |b| && b[j].record == f && b[j].write == w;
      assert (a + b)[|a| + j] == b[j];
    }
  }

  /** In both kernels an operation reads exactly the records that it has to read, and writes exactly
      those that it has to write. */
  lemma {:induction false} PieceTouches(split: bool, p: Param, i: nat, f: nat)
    requires |p.types| == |p.records| == |p.fields| == PIECES && i < PIECES
    ensures var ts := if split then SplitPiece(p, i) else NoSplitPiece(p, i);
            && (TouchedBy(ts, f, false) <==> HasToRead(split, p, i, f))
            && (TouchedBy(ts, f, true) <==> HasToWrite(split, p, i, f))
  {
    hide TouchedBy, EachField;
    var ts := if split then SplitPiece(p, i) else NoSplitPiece(p, i);
    forall w: bool
      ensures TouchedBy(ts, f, w) <==> if w then HasToWrite(split, p, i, f) else HasToRead(split, p, i, f)
    {
      if |ts| == 1 {
        TouchedByOne(ts[0], f, w);
        assert ts == [ts[0]];
      } else if |ts| == 2 {
        TouchedByOne(ts[0], f, w);
        TouchedByOne(ts[1], f, w);
        TouchedConcat([ts[0]], [ts[1]], f, w);
        assert ts == [ts[0]] + [ts[1]];
      } else {
        FieldsTouched(p, i, f, w);
      }
    }
  }

  lemma {:induction false} FieldsTouched(p: Param, i: nat, f: nat, w: bool)
    requires |p.types| == |p.records| == |p.fields| == PIECES && i < PIECES
    requires p.types[i] in {FULL_READ, FULL_READ_MODIFY_WRITE, INSERT}
    ensures TouchedBy(SplitPiece(p, i), f, w) <==>
            if w then HasToWrite(true, p, i, f) else HasToRead(true, p, i, f)
  {
    hide TouchedBy, EachField;
    EachFieldTouched(p.records[i], false, (j: nat) => FullReadPlan_readLocs(j), f, w);
    EachFieldTouched(p.records[i], true, (j: nat) => InsertFullPlan_writeLocs(j), f, w);
    EachFieldTouched(p.records[i], false, (j: nat) => FullRmwPlan_readLocs(j), f, w);
    var fields := EachField(p.records[i], false, (j: nat) => FullRmwPlan_readLocs(j));
    var write := Touch(p.records[i] * FIELDS + p.fields[i], true, FullRmwPlan_writeLoc);
    TouchedByOne(write, f, w);
    TouchedConcat(fields, [write], f, w);
  }

  // ------------------------------------------------------------------- the batch as a job

  function PieceAccesses(split: bool, ps: seq<Param>, u: nat): (a: seq<Access<Key>>)
    requires ParamsOk(ps) && u < PIECES * |ps|
    ensures |a| == |Piece(split, ps, u)|
    ensures forall j | 0 <= j < |a| ::
            a[j] == Access(Key(0, Piece(split, ps, u)[j].record), u, Piece(split, ps, u)[j].write)
  {
    var ts := Piece(split, ps, u);
    seq(|ts|, j requires 0 <= j < |ts| => Access(Key(0, ts[j].record), u, ts[j].write))
  }

  function Executed(split: bool, ps: seq<Param>, u: nat): seq<Access<Key>>
    requires ParamsOk(ps) && u <= PIECES * |ps|
  {
    if u == 0 then [] else Executed(split, ps, u - 1) + PieceAccesses(split, ps, u - 1)
  }

  /** The plan words in which the pieces look for their locations. */
  function PieceWords(split: bool, ps: seq<Param>, base: seq<nat>, u: nat): (w: seq<nat>)
    requires ParamsOk(ps) && u < PIECES * |ps| && |base| == |ps|
    ensures |w| == |Piece(split, ps, u)|
    ensures forall j | 0 <= j < |w| :: w[j] == base[u / PIECES] + WordOf(u % PIECES, Piece(split, ps, u)[j].field)
  {
    var ts := Piece(split, ps, u);
    seq(|ts|, j requires 0 <= j < |ts| => base[u / PIECES] + WordOf(u % PIECES, ts[j].field))
  }

  function PlanWords(split: bool, ps: seq<Param>, base: seq<nat>, u: nat): seq<nat>
    requires ParamsOk(ps) && u <= PIECES * |ps| && |base| == |ps|
  {
    if u == 0 then [] else PlanWords(split, ps, base, u - 1) + PieceWords(split, ps, base, u - 1)
  }

  function Starts(split: bool, ps: seq<Param>): (starts: seq<nat>)
    requires ParamsOk(ps)
    ensures |starts| == PIECES * |ps| + 1
    ensures forall u | 0 <= u < |starts| :: starts[u] == |Executed(split, ps, u)|
  {
    seq(PIECES * |ps| + 1, u requires 0 <= u <= PIECES * |ps| => |Executed(split, ps, u)|)
  }

  function YcsbJob(split: bool, ps: seq<Param>, lane: (nat, seq<Row>, nat) -> Word, width: nat -> nat): Job
    requires ParamsOk(ps)
  {
    Job(Executed(split, ps, PIECES * |ps|), Starts(split, ps), lane, width)
  }

  ghost predicate Matches(a: seq<Access<Key>>, w: seq<nat>, base: seq<nat>, ops: seq<Op>) {
    && |a| == |w| == |ops|
    && forall g | 0 <= g < |ops| ::
         && a[g].key == Key(0, ops[g].record) && a[g].write == ops[g].write
         && ops[g].txn < |base| && w[g] == Address(base, ops[g])
  }

  ghost predicate MatchesUpto(split: bool, ps: seq<Param>, base: seq<nat>, u: nat)
    requires ParamsOk(ps) && u <= PIECES * |ps| && |base| == |ps|
  {
    Matches(Executed(split, ps, u), PlanWords(split, ps, base, u), base, Emitted(split, ps, u))
  }

  lemma {:induction false} OneMoreMatches(split: bool, ps: seq<Param>, base: seq<nat>, u: nat)
    requires ParamsOk(ps) && u < PIECES * |ps| && |base| == |ps| && MatchesUpto(split, ps, base, u)
    ensures MatchesUpto(split, ps, base, u + 1)
  {
    hide Piece, PieceEmits, PieceWords, PieceAccesses, Matches, ParamsOk;
    PieceMatches(split, ps, base, u);
    MatchesConcat(base, Executed(split, ps, u), PlanWords(split, ps, base, u), Emitted(split, ps, u),
                  PieceAccesses(split, ps, u), PieceWords(split, ps, base, u), PieceEmits(split, ps, u));
  }

  lemma NothingMatches(split: bool, ps: seq<Param>, base: seq<nat>)
    requires ParamsOk(ps) && |base| == |ps|
    ensures MatchesUpto(split, ps, base, 0)
  {}

  /** The accesses that the pieces make are, one by one, the accesses submitted. */
  lemma {:induction false} ExecutedMatchesBatch(split: bool, ps: seq<Param>, base: seq<nat>, u: nat)
    requires ParamsOk(ps) && u <= PIECES * |ps| && |base| == |ps|
    ensures Matches(Executed(split, ps, u), PlanWords(split, ps, base, u), base, Emitted(split, ps, u))
    decreases u
  {
    hide Matches, ParamsOk, Executed, PlanWords, Emitted;
    if u == 0 {
      NothingMatches(split, ps, base);
    } else {
      ExecutedMatchesBatch(split, ps, base, u - 1);
      OneMoreMatches(split, ps, base, u - 1);
    }
  }

  lemma {:induction false} PieceMatches(split: bool, ps: seq<Param>, base: seq<nat>, u: nat)
    requires ParamsOk(ps) && u < PIECES * |ps| && |base| == |ps|
    ensures Matches(PieceAccesses(split, ps, u), PieceWords(split, ps, base, u), base, PieceEmits(split, ps, u))
  {
    hide Piece, PieceEmits, WordOf;
    PieceDoesWhatIsEmitted(split, ps, u);
  }

  lemma MatchesConcat(base: seq<nat>, a: seq<Access<Key>>, w: seq<nat>, ops: seq<Op>,
                      a': seq<Access<Key>>, w': seq<nat>, ops': seq<Op>)
    requires Matches(a, w, base, ops) && Matches(a', w', base, ops')
    ensures Matches(a + a', w + w', base, ops + ops')
  {}

  // --------------------------------------------------------------------- well-formedness

  lemma {:induction false} StartsMonotone(split: bool, ps: seq<Param>, u: nat, v: nat)
    requires ParamsOk(ps) && u <= v <= PIECES * |ps|
    ensures Executed(split, ps, u) <= Executed(split, ps, v)
    decreases v - u
  {
    hide Piece, PieceAccesses;
    if u < v { StartsMonotone(split, ps, u, v - 1); }
  }

  lemma {:induction false} AccessBelongsToPiece(split: bool, ps: seq<Param>, u: nat, g: nat)
    requires ParamsOk(ps) && u <= PIECES * |ps| && g < |Executed(split, ps, u)|
    ensures var v := Executed(split, ps, u)[g].unit;
            v < u && |Executed(split, ps, v)| <= g < |Executed(split, ps, v + 1)|
    decreases u
  {
    hide Piece;
    if g < |Executed(split, ps, u - 1)| {
      AccessBelongsToPiece(split, ps, u - 1, g);
    }
  }

  lemma {:induction false} JobIsWellFormed(split: bool, ps: seq<Param>, lane: (nat, seq<Row>, nat) -> Word,
                                           width: nat -> nat)
    requires ParamsOk(ps)
    ensures WellFormed(YcsbJob(split, ps, lane, width))
  {
    hide Piece;
    var j := YcsbJob(split, ps, lane, width);
    forall u, v | 0 <= u <= v < |j.start| ensures j.start[u] <= j.start[v] {
      StartsMonotone(split, ps, u, v);
    }
    forall g | 0 <= g < |j.ops| ensures var u := j.ops[g].unit; u + 1 < |j.start| && j.start[u] <= g < j.start[u + 1] {
      AccessBelongsToPiece(split, ps, PIECES * |ps|, g);
    }
  }

  // ----------------------------------------------------------------- distinct plan words

  /** The plans of different transactions do not overlap. */
  ghost predicate PlansApart(base: seq<nat>, size: nat) {
    && (forall s, t | 0 <= s < t < |base| :: base[s] + PLAN_WORDS <= base[t])
    && (forall t | 0 <= t < |base| :: base[t] + PLAN_WORDS <= size)
  }

  function PieceBase(base: seq<nat>, u: nat): nat
    requires u < PIECES * |base|
  {
    base[u / PIECES] + PIECE_WORDS * (u % PIECES)
  }

  lemma {:induction false} PieceBasesApart(base: seq<nat>, size: nat, u: nat, v: nat)
    requires PlansApart(base, size) && u < v < PIECES * |base|
    ensures PieceBase(base, u) + PIECE_WORDS <= PieceBase(base, v)
  {
    assert u / PIECES == v / PIECES || u / PIECES < v / PIECES;
  }

  /** Every piece's words increase, and lie within the piece's plan. */
  ghost predicate TouchesIncrease(ts: seq<Touch>, i: nat) {
    && (forall g, h | 0 <= g < h < |ts| :: WordOf(i, ts[g].field) < WordOf(i, ts[h].field))
    && (forall g | 0 <= g < |ts| :: PIECE_WORDS * i <= WordOf(i, ts[g].field) < PIECE_WORDS * (i + 1))
  }

  lemma OwnWordsIncrease(ts: seq<Touch>, i: nat)
    requires |ts| <= PIECE_WORDS && forall g: nat | g < |ts| :: WordOf(i, ts[g].field) == PIECE_WORDS * i + g
    ensures TouchesIncrease(ts, i)
  {
    hide WordOf;
  }

  lemma {:induction false} SplitTouchesIncrease(p: Param, i: nat)
    requires |p.types| == |p.records| == |p.fields| == PIECES && i < PIECES
    ensures TouchesIncrease(SplitPiece(p, i), i)
  {
    hide TouchesIncrease;
    var ts := SplitPiece(p, i);
    assert forall g: nat | g < |ts| :: WordOf(i, ts[g].field) == PIECE_WORDS * i + g;
    OwnWordsIncrease(ts, i);
  }

  lemma {:induction false} NoSplitTouchesIncrease(p: Param, i: nat)
    requires |p.types| == |p.records| == |p.fields| == PIECES && i < PIECES
    ensures TouchesIncrease(NoSplitPiece(p, i), i)
  {
    hide TouchesIncrease;
    var ts := NoSplitPiece(p, i);
    assert forall g: nat | g < |ts| :: WordOf(i, ts[g].field) == PIECE_WORDS * i + g;
    OwnWordsIncrease(ts, i);
  }

  lemma {:induction false} PieceWordsIncrease(split: bool, ps: seq<Param>, base: seq<nat>, u: nat)
    requires ParamsOk(ps) && u < PIECES * |ps| && |base| == |ps|
    ensures Increasing(PieceWords(split, ps, base, u))
    ensures WordsIn(PieceWords(split, ps, base, u), PieceBase(base, u), PieceBase(base, u) + PIECE_WORDS)
  {
    var p, i := ps[u / PIECES], u % PIECES;
    if split { SplitTouchesIncrease(p, i); } else { NoSplitTouchesIncrease(p, i); }
    hide SplitPiece, NoSplitPiece, WordOf;
    assert TouchesIncrease(Piece(split, ps, u), i);
    hide Piece;
  }

  ghost predicate WordsIn(w: seq<nat>, lo: nat, hi: nat) {
    forall g | 0 <= g < |w| :: lo <= w[g] < hi
  }

  ghost predicate WordsUpto(split: bool, ps: seq<Param>, base: seq<nat>, u: nat)
    requires ParamsOk(ps) && u <= PIECES * |ps| && |base| == |ps|
  {
    && Increasing(PlanWords(split, ps, base, u))
    && (if u > 0 then WordsIn(PlanWords(split, ps, base, u), 0, PieceBase(base, u - 1) + PIECE_WORDS)
        else PlanWords(split, ps, base, u) == [])
  }

  lemma {:induction false} WordsOfOneMore(split: bool, ps: seq<Param>, base: seq<nat>, size: nat, u: nat)
    requires ParamsOk(ps) && u < PIECES * |ps| && |base| == |ps| && PlansApart(base, size)
             && WordsUpto(split, ps, base, u)
    ensures WordsUpto(split, ps, base, u + 1)
  {
    hide PlanWords, PieceWords, PieceBase, PlansApart, Piece, ParamsOk, Increasing;
    var v, w := PlanWords(split, ps, base, u), PieceWords(split, ps, base, u);
    NextWords(split, ps, base, u);
    PieceWordsIncrease(split, ps, base, u);
    if u > 0 { PieceBasesApart(base, size, u - 1, u); }
    IncreasingConcat(v, w, PieceBase(base, u));
  }

  lemma NextWords(split: bool, ps: seq<Param>, base: seq<nat>, u: nat)
    requires ParamsOk(ps) && u < PIECES * |ps| && |base| == |ps|
    ensures PlanWords(split, ps, base, u + 1) == PlanWords(split, ps, base, u) + PieceWords(split, ps, base, u)
  {
    hide PieceWords, ParamsOk;
  }

  /** Going through the batch, the plan words only increase, so no two accesses share one. */
  lemma {:induction false} WordsIncrease(split: bool, ps: seq<Param>, base: seq<nat>, size: nat, u: nat)
    requires ParamsOk(ps) && u <= PIECES * |ps| && |base| == |ps| && PlansApart(base, size)
    ensures WordsUpto(split, ps, base, u)
    decreases u
  {
    if u > 0 {
      hide WordsUpto;
      WordsIncrease(split, ps, base, size, u - 1);
      WordsOfOneMore(split, ps, base, size, u - 1);
    }
  }

  ghost predicate Increasing(w: seq<nat>) {
    forall g, h | 0 <= g < h < |w| :: w[g] < w[h]
  }

  lemma IncreasingConcat(v: seq<nat>, w: seq<nat>, m: nat)
    requires Increasing(v) && Increasing(w)
    requires (forall g | 0 <= g < |v| :: v[g] < m) && (forall g | 0 <= g < |w| :: m <= w[g])
    ensures Increasing(v + w)
  {}

  lemma {:induction false} BatchIsAddressable(split: bool, ps: seq<Param>, base: seq<nat>, size: nat)
    requires ParamsOk(ps) && |base| == |ps| && PlansApart(base, size)
    ensures Addressable(base, Batch(split, ps), size) && DistinctWords(base, Batch(split, ps), size)
    ensures |PlanWords(split, ps, base, PIECES * |ps|)| == |Batch(split, ps)|
    ensures forall g | 0 <= g < |Batch(split, ps)| :: PlanWords(split, ps, base, PIECES * |ps|)[g] < size
  {
    var u := PIECES * |ps|;
    hide Emitted, PlanWords, Executed, ParamsOk;
    var w, ops := PlanWords(split, ps, base, u), Batch(split, ps);
    assert Matches(Executed(split, ps, u), w, base, ops) by { ExecutedMatchesBatch(split, ps, base, u); }
    WordsIncrease(split, ps, base, size, u);
    forall g | 0 <= g < |ops| ensures ops[g].txn < |base| && w[g] == Address(base, ops[g]) < size {
      assert w[g] < PieceBase(base, u - 1) + PIECE_WORDS <= size;
    }
    hide PlansApart, PieceBase;
  }

  // ------------------------------------------------------------------------ the theorem

  lemma {:induction false} BatchIsPlanned(split: bool, ps: seq<Param>, base: seq<nat>, plan: seq<nat>, t: nat)
    requires ParamsOk(ps) && |base| == |ps| && PlansApart(base, |plan|)
    requires Addressable(base, Batch(split, ps), |plan|) && HoldsPlan(base, Batch(split, ps), plan)
    requires |PlanWords(split, ps, base, PIECES * |ps|)| == |Executed(split, ps, PIECES * |ps|)|
    ensures TablePlanned(base, plan, Executed(split, ps, PIECES * |ps|), PlanWords(split, ps, base, PIECES * |ps|), t)
  {
    hide Emitted, Executed, PlanWords;
    var u := PIECES * |ps|;
    ExecutedMatchesBatch(split, ps, base, u);
    var ops, word, batch := Executed(split, ps, u), PlanWords(split, ps, base, u), Batch(split, ps);
    if t == 0 {
      var idx := seq(|ops|, i requires 0 <= i < |ops| => i);
      forall g: nat | g < |ops| ensures g in idx { assert idx[g] == g; }
      assert IsSlice(ops, 0, idx);
      assert BatchOf(base, ops, word, 0, idx, batch);
    } else {
      assert IsSlice(ops, t, []);
      assert BatchOf(base, ops, word, t, [], []);
      NothingToPlan(base, [], plan);
    }
  }

  /** What the planner leaves in the plans makes the epoch ready to run. */
  lemma {:induction false} YcsbIsReady(split: bool, ps: seq<Param>, base: seq<nat>, plan: seq<nat>, c: Config)
    requires ParamsOk(ps) && |base| == |ps| && PlansApart(base, |plan|)
    requires Addressable(base, Batch(split, ps), |plan|) && HoldsPlan(base, Batch(split, ps), plan)
    requires forall g | 0 <= g < |PlanWords(split, ps, base, PIECES * |ps|)| ::
             PlanWords(split, ps, base, PIECES * |ps|)[g] < |plan|
    requires c.job == YcsbJob(split, ps, c.job.lane, c.job.width)
    requires c.loc == PlannedLocs(plan, PlanWords(split, ps, base, PIECES * |ps|))
    requires c.epoch > 0 && HandOff(c.begin, c.epoch)
    ensures Ready(c)
  {
    JobIsWellFormed(split, ps, c.job.lane, c.job.width);
    var u := PIECES * |ps|;
    var ops, word := Executed(split, ps, u), PlanWords(split, ps, base, u);
    assert |word| == |ops| by { ExecutedMatchesBatch(split, ps, base, u); }
    forall t: nat ensures TablePlanned(base, plan, ops, word, t) {
      BatchIsPlanned(split, ps, base, plan, t);
    }
    PlansCompose(base, plan, ops, word);
  }

  /** The executor, which finds its locations in what the planner has left. */
  method ExecutePlanned(split: bool, ps: seq<Param>, base: seq<nat>, plan: seq<nat>, device: Device, epoch: nat,
                        lane: (nat, seq<Row>, nat) -> Word, width: nat -> nat)
    requires ParamsOk(ps) && |base| == |ps| && PlansApart(base, |plan|)
    requires Addressable(base, Batch(split, ps), |plan|) && HoldsPlan(base, Batch(split, ps), plan)
    requires epoch > 0 && HandOff(device.Mem(), epoch)
    modifies device
    ensures HandOff(device.Mem(), epoch + 1) && WellFormed(YcsbJob(split, ps, lane, width))
    ensures forall k :: Contents(device.Mem(), width)(k) ==
                        SerialResult(YcsbJob(split, ps, lane, width), Contents(old(device.Mem()), width))(k)
  {
    hide Emitted, Executed, PlanWords, HandOff, PlansApart, ParamsOk, Ready;
    BatchIsAddressable(split, ps, base, |plan|);
    var word := PlanWords(split, ps, base, PIECES * |ps|);
    var job := YcsbJob(split, ps, lane, width);
    var c := Config(job, PlannedLocs(plan, word), epoch, device.Mem());
    YcsbIsReady(split, ps, base, plan, c);
    JobIsWellFormed(split, ps, lane, width);
    device.Launch(job);
    device.Execute(c);
  }

  /** One epoch, from the indexed transactions to the database: whatever the order of the
      submitting threads and of the warps' steps, memory ends up as if the pieces had been run
      one after the other in transaction order. */
  method RunEpoch(split: bool, ps: seq<Param>, numOps: array<nat>, offsets: array<nat>,
                  planner: GpuTableExecutionPlanner, base: seq<nat>, plan: array<nat>,
                  device: Device, epoch: nat, lane: (nat, seq<Row>, nat) -> Word, width: nat -> nat)
    requires ParamsOk(ps) && |ps| <= numOps.Length && |ps| < offsets.Length && numOps != offsets && offsets[0] == 0
    requires planner.Valid() && |Batch(split, ps)| <= planner.maxNumOps && |Batch(split, ps)| < WORD
    requires |base| == |ps| && PlansApart(base, plan.Length)
    requires {numOps, offsets, plan} !! {planner.writeOpsBefore, planner.writeOpsAfter, planner.tverWriteOpsBefore}
    requires plan != numOps && plan != offsets
    requires epoch > 0 && HandOff(device.Mem(), epoch)
    modifies numOps, offsets, plan, device, planner`currNumOps, planner.submittedOps, planner.sortedOps
    modifies planner.writeOpsBefore, planner.writeOpsAfter, planner.rwOpsType, planner.tverWriteOpsBefore
    ensures HandOff(device.Mem(), epoch + 1)
    ensures WellFormed(YcsbJob(split, ps, lane, width))
    ensures forall k :: Contents(device.Mem(), width)(k) ==
                        SerialResult(YcsbJob(split, ps, lane, width), Contents(old(device.Mem()), width))(k)
  {
    hide Emitted, Executed, PlanWords, HandOff, PlansApart, ParamsOk, WellFormed, Batch, YcsbJob, Contents;
    BatchIsAddressable(split, ps, base, plan.Length);
    var n := Submit(split, ps, numOps, offsets, planner.submittedOps);
    planner.currNumOps := n;
    planner.InitializeExecutionPlan(plan, base);
    ExecutePlanned(split, ps, base, plan[..], device, epoch, lane, width);
  }
}
