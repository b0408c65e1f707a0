/** Submission of a YCSB batch: one thread per transaction counts its accesses, a prefix sum
    turns the counts into offsets, and one thread per transaction writes its accesses there. */
module YcsbSubmitter {
  import opened Planner
  import Offsets
  import Sort = StableSort

  datatype OpType = READ | FULL_READ | UPDATE | READ_MODIFY_WRITE | FULL_READ_MODIFY_WRITE | INSERT

  datatype Param = Param(types: seq<OpType>, records: seq<nat>, fields: seq<nat>)

  const PIECES: nat := 10
  const FIELDS: nat := 10

  ghost predicate ParamsOk(ps: seq<Param>) {
    forall t | 0 <= t < |ps| :: |ps[t].types| == |ps[t].records| == |ps[t].fields| == PIECES
  }

  // ------------------------------------------------------------------ the plan layout

  /** The members of the plan union of one piece. */
  datatype PlanField =
    | ReadPlan_readLoc
    | FullReadPlan_readLocs(j: nat)
    | UpdatePlan_writeLoc
    | CopyUpdatePlan_readLoc | CopyUpdatePlan_writeLoc
    | RmwPlan_readLoc | RmwPlan_writeLoc
    | FullRmwPlan_readLocs(j: nat) | FullRmwPlan_writeLoc
    | InsertPlan_writeLoc
    | InsertFullPlan_writeLocs(j: nat)

  const PIECE_WORDS: nat := 11
  const PLAN_WORDS: nat := 110

  /** The word of a member of piece i's plan; members of different plans share words. */
  function WordOf(i: nat, field: PlanField): nat {
    PIECE_WORDS * i + match field
                      case ReadPlan_readLoc => 0
                      case FullReadPlan_readLocs(j) => j
                      case UpdatePlan_writeLoc => 0
                      case CopyUpdatePlan_readLoc => 0
                      case CopyUpdatePlan_writeLoc => 1
                      case RmwPlan_readLoc => 0
                      case RmwPlan_writeLoc => 1
                      case FullRmwPlan_readLocs(j) => j
                      case FullRmwPlan_writeLoc => 10
                      case InsertPlan_writeLoc => 0
                      case InsertFullPlan_writeLocs(j) => j
  }

  // ---------------------------------------------------------------------- the two passes

  /** What the first pass counts for an operation. */
  function OpCount(split: bool, t: OpType): nat {
    match t
    case READ => 1
    case UPDATE => if split then 1 else 2
    case READ_MODIFY_WRITE => 2
    case FULL_READ => if split then 10 else 1
    case FULL_READ_MODIFY_WRITE => if split then 11 else 2
    case INSERT => if split then 10 else 1
  }

  function FieldOps(record: nat, txn: nat, write: bool, fields: nat, word: nat -> nat): (ops: seq<Op>)
    ensures |ops| == fields
    ensures forall j: nat | j < fields :: ops[j] == Op(record * FIELDS + j, txn, write, word(j))
  {
    seq(fields, j requires 0 <= j < fields => Op(record * FIELDS + j, txn, write, word(j)))
  }

  /** What the second pass emits for operation i. */
  function Emits(split: bool, txn: nat, p: Param, i: nat): seq<Op>
    requires |p.types| == |p.records| == |p.fields| == PIECES && i < PIECES
  {
    var r := if split then p.records[i] * FIELDS + p.fields[i] else p.records[i];
    match p.types[i]
    case READ => [Op(r, txn, false, WordOf(i, ReadPlan_readLoc))]
    case UPDATE =>
      if split then [Op(r, txn, true, WordOf(i, UpdatePlan_writeLoc))]
      else [Op(r, txn, false, WordOf(i, CopyUpdatePlan_readLoc)), Op(r, txn, true, WordOf(i, CopyUpdatePlan_writeLoc))]
    case READ_MODIFY_WRITE => [Op(r, txn, false, WordOf(i, RmwPlan_readLoc)),
      Op(r, txn, true, WordOf(i, RmwPlan_writeLoc))]
    case FULL_READ =>
      if split then FieldOps(p.records[i], txn, false, FIELDS, (j: nat) => WordOf(i, FullReadPlan_readLocs(j)))
      else [Op(r, txn, false, WordOf(i, ReadPlan_readLoc))]
    case FULL_READ_MODIFY_WRITE =>
      if split then
        FieldOps(p.records[i], txn, false, FIELDS, (j: nat) => WordOf(i, FullRmwPlan_readLocs(j)))
        + [Op(r, txn, true, WordOf(i, FullRmwPlan_writeLoc))]
      else [Op(r, txn, false, WordOf(i, RmwPlan_readLoc)), Op(r, txn, true, WordOf(i, RmwPlan_writeLoc))]
    case INSERT =>
      if split then FieldOps(p.records[i], txn, true, FIELDS, (j: nat) => WordOf(i, InsertFullPlan_writeLocs(j)))
      else [Op(r, txn, true, WordOf(i, InsertPlan_writeLoc))]
  }

  lemma {:induction false} CountsWhatIsEmitted(split: bool, txn: nat, p: Param, i: nat)
    requires |p.types| == |p.records| == |p.fields| == PIECES && i < PIECES
    ensures |Emits(split, txn, p, i)| == OpCount(split, p.types[i])
  {}

  /** Piece u is operation u % 10 of transaction u / 10. */
  function PieceEmits(split: bool, ps: seq<Param>, u: nat): seq<Op>
    requires ParamsOk(ps) && u < PIECES * |ps|
  {
    Emits(split, u / PIECES, ps[u / PIECES], u % PIECES)
  }

  /** The submitted accesses of the first u pieces. */
  function Emitted(split: bool, ps: seq<Param>, u: nat): seq<Op>
    requires ParamsOk(ps) && u <= PIECES * |ps|
  {
    if u == 0 then [] else Emitted(split, ps, u - 1) + PieceEmits(split, ps, u - 1)
  }

  /** What transaction txn emits for its first i operations. */
  function TxnEmits(split: bool, txn: nat, p: Param, i: nat): seq<Op>
    requires |p.types| == |p.records| == |p.fields| == PIECES && i <= PIECES
  {
    if i == 0 then [] else TxnEmits(split, txn, p, i - 1) + Emits(split, txn, p, i - 1)
  }

  ghost predicate IsTxnPart(split: bool, ps: seq<Param>, t: nat, i: nat)
    requires ParamsOk(ps) && t < |ps| && i <= PIECES
  {
    Emitted(split, ps, PIECES * t + i) == Emitted(split, ps, PIECES * t) + TxnEmits(split, t, ps[t], i)
  }

  lemma {:induction false} OneMoreOfTxn(split: bool, ps: seq<Param>, t: nat, i: nat)
    requires ParamsOk(ps) && t < |ps| && i < PIECES && IsTxnPart(split, ps, t, i)
    ensures IsTxnPart(split, ps, t, i + 1)
  {
    hide Emits, Emitted;
    PieceEmitted(split, ps, t, i);
    assert TxnEmits(split, t, ps[t], i + 1) == TxnEmits(split, t, ps[t], i) + Emits(split, t, ps[t], i);
  }

  lemma NoPartYet(split: bool, ps: seq<Param>, t: nat)
    requires ParamsOk(ps) && t < |ps|
    ensures IsTxnPart(split, ps, t, 0)
  {
    hide Emitted, ParamsOk;
  }

  lemma {:induction false} TxnPart(split: bool, ps: seq<Param>, t: nat, i: nat)
    requires ParamsOk(ps) && t < |ps| && i <= PIECES
    ensures IsTxnPart(split, ps, t, i)
    decreases i
  {
    hide IsTxnPart, ParamsOk;
    if i == 0 {
      NoPartYet(split, ps, t);
    } else {
      TxnPart(split, ps, t, i - 1);
      OneMoreOfTxn(split, ps, t, i - 1);
    }
  }

  /** What a transaction's thread emits is its part of the batch. */
  lemma {:induction false} EmittedByTxn(split: bool, ps: seq<Param>, t: nat, i: nat)
    requires ParamsOk(ps) && t < |ps| && i <= PIECES
    ensures Emitted(split, ps, PIECES * t + i) == Emitted(split, ps, PIECES * t) + TxnEmits(split, t, ps[t], i)
  {
    hide Emitted, TxnEmits;
    TxnPart(split, ps, t, i);
  }

  lemma {:induction false} PieceEmitted(split: bool, ps: seq<Param>, t: nat, i: nat)
    requires ParamsOk(ps) && t < |ps| && i < PIECES
    ensures Emitted(split, ps, PIECES * t + (i + 1)) == Emitted(split, ps, PIECES * t + i) + Emits(split, t, ps[t], i)
  {
    hide Emits;
    var u := PIECES * t + i;
    assert u / PIECES == t && u % PIECES == i;
  }

  function Batch(split: bool, ps: seq<Param>): seq<Op>
    requires ParamsOk(ps)
  {
    Emitted(split, ps, PIECES * |ps|)
  }

  /** What the transactions' threads write. */
  function Parts(split: bool, ps: seq<Param>): (parts: seq<seq<Op>>)
    requires ParamsOk(ps)
    ensures |parts| == |ps| && forall t: nat | t < |ps| :: parts[t] == TxnEmits(split, t, ps[t], PIECES)
  {
    seq(|ps|, t requires 0 <= t < |ps| => TxnEmits(split, t, ps[t], PIECES))
  }

  /** One after the other they are the batch. */
  lemma {:induction false} PartsAreBatch(split: bool, ps: seq<Param>, t: nat)
    requires ParamsOk(ps) && t <= |ps|
    ensures Offsets.Concat(Parts(split, ps), t) == Emitted(split, ps, PIECES * t)
    decreases t
  {
    hide Emits, TxnEmits, PieceEmits;
    if t > 0 {
      PartsAreBatch(split, ps, t - 1);
      EmittedByTxn(split, ps, t - 1, PIECES);
    }
  }

  // --------------------------------------------------------------------------- the kernels

  /** Thread tid of the first pass counts what thread tid of the second pass will emit. */
  method CountTxnOps(split: bool, p: Param, ghost tid: nat) returns (ops: nat)
    requires |p.types| == |p.records| == |p.fields| == PIECES
    ensures ops == |TxnEmits(split, tid, p, PIECES)|
  {
    hide Emits;
    ops := 0;
    for i := 0 to PIECES
      invariant ops == |TxnEmits(split, tid, p, i)|
    {
      match p.types[i] {
        case READ => ops := ops + 1;
        case UPDATE => ops := ops + if split then 1 else 2;
        case READ_MODIFY_WRITE => ops := ops + 2;
        case FULL_READ => ops := ops + if split then 10 else 1;
        case FULL_READ_MODIFY_WRITE => ops := ops + if split then 11 else 2;
        case INSERT => ops := ops + if split then 10 else 1;
      }
      CountsWhatIsEmitted(split, tid, p, i);
    }
  }

  method PrepareSubmit(split: bool, ps: seq<Param>, numOps: array<nat>)
    requires ParamsOk(ps) && |ps| <= numOps.Length
    modifies numOps
    ensures forall t: nat | t < |ps| :: numOps[t] == |Parts(split, ps)[t]|
  {
    hide TxnEmits;
    for t := 0 to |ps|
      invariant forall s: nat | s < t :: numOps[s] == |Parts(split, ps)[s]|
    {
      numOps[t] := CountTxnOps(split, ps[t], t);
    }
  }

  /** Puts one access at the running index. */
  method Append(ops: array<Op>, opIdx: nat, op: Op) returns (next: nat)
    requires opIdx < ops.Length
    modifies ops
    ensures next == opIdx + 1 && Offsets.WritesRange([op], opIdx, old(ops[..]), ops[..])
  {
    hide Offsets.WritesRange;
    Offsets.WritesOne(op, opIdx, ops[..]);
    ghost var was := ops[..];
    ops[opIdx] := op;
    assert ops[..] == was[opIdx := op];
    next := opIdx + 1;
  }

  method AppendTwo(ops: array<Op>, opIdx: nat, a: Op, b: Op) returns (next: nat)
    requires opIdx + 2 <= ops.Length
    modifies ops
    ensures next == opIdx + 2 && Offsets.WritesRange([a, b], opIdx, old(ops[..]), ops[..])
  {
    hide Offsets.WritesRange;
    next := Append(ops, opIdx, a);
    ghost var mid := ops[..];
    next := Append(ops, next, b);
    Offsets.WritesBoth([a], [b], opIdx, old(ops[..]), mid, ops[..]);
    assert [a] + [b] == [a, b];
  }

  /** Thread tid of the second pass writes its accesses from its offset on, and nothing else. */
  method SubmitTxn(split: bool, p: Param, tid: nat, start: nat, ops: array<Op>)
    requires |p.types| == |p.records| == |p.fields| == PIECES
    requires start + |TxnEmits(split, tid, p, PIECES)| <= ops.Length
    modifies ops
    ensures Offsets.WritesRange(TxnEmits(split, tid, p, PIECES), start, old(ops[..]), ops[..])
  {
    hide Emits, Offsets.WritesRange, OpCount;
    var opIdx := start;
    Offsets.WritesNothing(start, ops[..]);
    for i := 0 to PIECES
      invariant opIdx == start + |TxnEmits(split, tid, p, i)| <= ops.Length
      invariant Offsets.WritesRange(TxnEmits(split, tid, p, i), start, old(ops[..]), ops[..])
    {
      CountsWhatIsEmitted(split, tid, p, i);
      TxnEmitsMonotone(split, tid, p, i + 1, PIECES);
      ghost var was := ops[..];
      opIdx := SubmitPiece(split, p, tid, i, opIdx, ops);
      Offsets.WritesBoth(TxnEmits(split, tid, p, i), Emits(split, tid, p, i), start, old(ops[..]), was, ops[..]);
    }
  }

  lemma {:induction false} TxnEmitsMonotone(split: bool, txn: nat, p: Param, i: nat, j: nat)
    requires |p.types| == |p.records| == |p.fields| == PIECES && i <= j <= PIECES
    ensures |TxnEmits(split, txn, p, i)| <= |TxnEmits(split, txn, p, j)|
    decreases j - i
  {
    if i < j { TxnEmitsMonotone(split, txn, p, i, j - 1); }
  }

  method SubmitPiece(split: bool, p: Param, tid: nat, i: nat, start: nat, ops: array<Op>) returns (opIdx: nat)
    requires |p.types| == |p.records| == |p.fields| == PIECES && i < PIECES
    requires start + OpCount(split, p.types[i]) <= ops.Length
    modifies ops
    ensures opIdx == start + OpCount(split, p.types[i])
    ensures Offsets.WritesRange(Emits(split, tid, p, i), start, old(ops[..]), ops[..])
  {
    hide Offsets.WritesRange, FieldOps, WordOf;
    var record := p.records[i];
    var r := if split then record * FIELDS + p.fields[i] else record;
    match p.types[i]
    case READ => opIdx := Append(ops, start, Op(r, tid, false, WordOf(i, ReadPlan_readLoc)));
    case UPDATE =>
      if split {
        opIdx := Append(ops, start, Op(r, tid, true, WordOf(i, UpdatePlan_writeLoc)));
      } else {
        opIdx := AppendTwo(ops, start, Op(r, tid, false, WordOf(i, CopyUpdatePlan_readLoc)),
          Op(r, tid, true, WordOf(i, CopyUpdatePlan_writeLoc)));
      }
    case READ_MODIFY_WRITE =>
      opIdx := AppendTwo(ops, start, Op(r, tid, false, WordOf(i, RmwPlan_readLoc)),
        Op(r, tid, true, WordOf(i, RmwPlan_writeLoc)));
    case FULL_READ =>
      if split {
        opIdx := SubmitFields(record, tid, false, (j: nat) => WordOf(i, FullReadPlan_readLocs(j)), start, ops);
      } else {
        opIdx := Append(ops, start, Op(r, tid, false, WordOf(i, ReadPlan_readLoc)));
      }
    case FULL_READ_MODIFY_WRITE =>
      if split {
        var word := (j: nat) => WordOf(i, FullRmwPlan_readLocs(j));
        opIdx := SubmitFields(record, tid, false, word, start, ops);
        ghost var mid := ops[..];
        var op := Op(r, tid, true, WordOf(i, FullRmwPlan_writeLoc));
        opIdx := Append(ops, opIdx, op);
        Offsets.WritesBoth(FieldOps(record, tid, false, FIELDS, word), [op], start, old(ops[..]), mid, ops[..]);
      } else {
        opIdx := AppendTwo(ops, start, Op(r, tid, false, WordOf(i, RmwPlan_readLoc)),
          Op(r, tid, true, WordOf(i, RmwPlan_writeLoc)));
      }
    case INSERT =>
      if split {
        opIdx := SubmitFields(record, tid, true, (j: nat) => WordOf(i, InsertFullPlan_writeLocs(j)), start, ops);
      } else {
        opIdx := Append(ops, start, Op(r, tid, true, WordOf(i, InsertPlan_writeLoc)));
      }
  }

  method SubmitFields(record: nat, tid: nat, write: bool, word: nat -> nat, start: nat, ops: array<Op>)
    returns (opIdx: nat)
    requires start + FIELDS <= ops.Length
    modifies ops
    ensures opIdx == start + FIELDS
    ensures Offsets.WritesRange(FieldOps(record, tid, write, FIELDS, word), start, old(ops[..]), ops[..])
  {
    hide Offsets.WritesRange;
    opIdx := start;
    Offsets.WritesNothing(start, ops[..]);
    assert FieldOps(record, tid, write, 0, word) == [];
    for j := 0 to FIELDS
      invariant opIdx == start + j
      invariant Offsets.WritesRange(FieldOps(record, tid, write, j, word), start, old(ops[..]), ops[..])
    {
      ghost var was := ops[..];
      opIdx := Append(ops, opIdx, Op(record * FIELDS + j, tid, write, word(j)));
      OneMoreField(record, tid, write, j, word);
      Offsets.WritesBoth(FieldOps(record, tid, write, j, word), [Op(record * FIELDS + j, tid, write, word(j))], start,
        old(ops[..]), was, ops[..]);
    }
  }

  lemma OneMoreField(record: nat, tid: nat, write: bool, j: nat, word: nat -> nat)
    ensures FieldOps(record, tid, write, j + 1, word) ==
            FieldOps(record, tid, write, j, word) + [Op(record * FIELDS + j, tid, write, word(j))]
  {}

  /** Both passes.  The threads of the second pass may run in any order. */
  method Submit(split: bool, ps: seq<Param>, numOps: array<nat>, offsets: array<nat>, ops: array<Op>)
    returns (currNumOps: nat)
    requires ParamsOk(ps) && |ps| <= numOps.Length && |ps| < offsets.Length && numOps != offsets
    requires offsets[0] == 0 && |Batch(split, ps)| <= ops.Length
    modifies numOps, offsets, ops
    ensures currNumOps == |Batch(split, ps)| && ops[..currNumOps] == Batch(split, ps)
    ensures offsets[0] == 0
  {
    ghost var parts := Parts(split, ps);
    PartsAreBatch(split, ps, |ps|);
    Offsets.StartIsLength(parts, |ps|);
    hide TxnEmits, Emitted, Offsets.Start, Offsets.Concat, Offsets.Written, Offsets.WritesRange;
    PrepareSubmit(split, ps, numOps);
    Offsets.InclusiveSum(parts, numOps, offsets, |ps|);
    currNumOps := offsets[|ps|];
    assert Offsets.Start(parts, 0) == 0 by { StartOfFirst(parts); }
    SubmitAll(split, ps, offsets, ops);
  }

  method SubmitAll(split: bool, ps: seq<Param>, offsets: array<nat>, ops: array<Op>)
    requires ParamsOk(ps) && |ps| < offsets.Length && |Batch(split, ps)| <= ops.Length
    requires forall t: nat | t <= |ps| :: offsets[t] == Offsets.Start(Parts(split, ps), t)
    modifies ops
    ensures ops[..|Batch(split, ps)|] == Batch(split, ps)
  {
    ghost var parts := Parts(split, ps);
    PartsAreBatch(split, ps, |ps|);
    Offsets.StartIsLength(parts, |ps|);
    hide TxnEmits, Emitted, Offsets.Start, Offsets.Concat, Offsets.Written, Offsets.WritesRange, ParamsOk;
    var done: set<nat> := {};
    while exists t: nat :: t < |ps| && t !in done
      invariant forall t | t in done :: t < |ps| && Offsets.Written(parts, t, ops[..])
      decreases |ps| - |done|
    {
      var tid: nat :| tid < |ps| && tid !in done;
      Offsets.RangeFits(parts, tid);
      ghost var was := ops[..];
      SubmitOne(split, ps, tid, offsets[tid], ops);
      Offsets.OneMoreWritten(parts, done, tid, was, ops[..]);
      Offsets.DoneBounded(done + {tid}, |ps|);
      done := done + {tid};
    }
    Offsets.AllWritten(parts, ops[..], |ps|);
    ghost var n := |Batch(split, ps)|;
    assert ops[..n] == ops[..][..n];
  }

  method SubmitOne(split: bool, ps: seq<Param>, tid: nat, offset: nat, ops: array<Op>)
    requires ParamsOk(ps) && tid < |ps| && offset + |Parts(split, ps)[tid]| <= ops.Length
    modifies ops
    ensures Offsets.WritesRange(Parts(split, ps)[tid], offset, old(ops[..]), ops[..])
  {
    hide TxnEmits, Offsets.WritesRange;
    SubmitTxn(split, ps[tid], tid, offset, ops);
  }

  lemma StartOfFirst(parts: seq<seq<Op>>)
    ensures Offsets.Start(parts, 0) == 0
  {}

  // ------------------------------------------------------------------ the sorted order

  ghost predicate InTxnOrder(ops: seq<Op>) {
    forall a, b | 0 <= a < b < |ops| :: ops[a].txn <= ops[b].txn
  }

  lemma {:induction false} EmitsOwnTxn(split: bool, txn: nat, p: Param, i: nat, op: Op)
    requires |p.types| == |p.records| == |p.fields| == PIECES && i < PIECES && op in Emits(split, txn, p, i)
    ensures op.txn == txn
  {}

  lemma {:induction false} EmittedInTxnOrder(split: bool, ps: seq<Param>, u: nat)
    requires ParamsOk(ps) && u <= PIECES * |ps|
    ensures InTxnOrder(Emitted(split, ps, u))
    ensures forall op | op in Emitted(split, ps, u) :: u > 0 && op.txn <= (u - 1) / PIECES
    decreases u
  {
    hide Emits;
    if u > 0 {
      EmittedInTxnOrder(split, ps, u - 1);
      var t := (u - 1) / PIECES;
      forall op | op in PieceEmits(split, ps, u - 1) ensures op.txn == t {
        EmitsOwnTxn(split, t, ps[t], (u - 1) % PIECES, op);
      }
    }
  }

  /** Sorting on the record bits alone orders the batch by record, then transaction, then
      program order. */
  lemma {:induction false} SortedByRecordThenTxn(split: bool, ps: seq<Param>, s: seq<Op>, i: nat, j: nat)
    returns (a: nat, b: nat)
    requires ParamsOk(ps) && IsSorted(Batch(split, ps), s) && i < j < |s|
    ensures a < |Batch(split, ps)| && b < |Batch(split, ps)| && s[i] == Batch(split, ps)[a]
            && s[j] == Batch(split, ps)[b]
    ensures s[i].record < s[j].record || (s[i].record == s[j].record && s[i].txn <= s[j].txn && a < b)
  {
    hide Emitted, Sort.Pos;
    var ops := Batch(split, ps);
    EmittedInTxnOrder(split, ps, PIECES * |ps|);
    a := Sort.PosOnto(KeysOf(ops), i);
    b := Sort.PosOnto(KeysOf(ops), j);
    Sort.PosOrder(KeysOf(ops), a, b);
  }
}
