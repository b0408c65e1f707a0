/** A TPC-C batch run serially, access by access: the rows before each access, what the transaction
    has read by then, and what its lanes write. */
module SerialRows {
  import opened Execution
  import opened Money
  import opened TpccEpoch
  import opened TpccLanes
  import opened TpccSubmitter

  /** A batch, run on a database by lanes that add to a balance what lane adder has added up. */
  datatype SerialBatch = SerialBatch(txns: seq<Params>, values: nat -> Values, adder: nat, width: nat -> nat,
                                     db: Database)

  function LaneIn(b: SerialBatch): (nat, seq<Row>, nat) -> Word { LaneAdding(b.txns, b.values, b.adder) }

  function JobOf(b: SerialBatch): Job { TpccJob(b.txns, LaneIn(b), b.width) }

  /** The row of k before transaction u of the serial run. */
  ghost function RowOf(b: SerialBatch, u: nat, k: Key): Row
    requires u <= |b.txns|
  {
    OneUnitEach(b.txns, LaneIn(b), b.width);
    RowBefore(JobOf(b), b.db, u, k)
  }

  /** The row of k before access p of transaction u. */
  ghost function RowAt(b: SerialBatch, u: nat, p: nat, k: Key): Row
    requires u < |b.txns| && p <= |Program(b.txns[u])|
  {
    JobShape(b.txns, LaneIn(b), b.width, u);
    Row0(JobOf(b), b.db, u, First(b.txns, u) + p, k)
  }

  /** What transaction u has read before its access p. */
  ghost function SeenAt(b: SerialBatch, u: nat, p: nat): seq<Row>
    requires u < |b.txns| && p <= |Program(b.txns[u])|
  {
    JobShape(b.txns, LaneIn(b), b.width, u);
    SerialRun(JobOf(b), b.db, u, First(b.txns, u) + p).seen
  }

  lemma {:induction false} TxnBegins(b: SerialBatch, u: nat, k: Key)
    requires u < |b.txns|
    ensures RowAt(b, u, 0, k) == RowOf(b, u, k) && SeenAt(b, u, 0) == []
    ensures RowAt(b, u, |Program(b.txns[u])|, k) == RowOf(b, u + 1, k)
  {
    hide TpccJob, First, Program, WellFormed, Row0, SerialRun, RowBefore, LaneIn;
    JobShape(b.txns, LaneIn(b), b.width, u);
    BeforeAndAfter(JobOf(b), b.db, u, k);
  }

  lemma NothingBefore(b: SerialBatch, k: Key)
    ensures RowOf(b, 0, k) == b.db(k)
  {
    OneUnitEach(b.txns, LaneIn(b), b.width);
    hide TpccJob, WellFormed, LaneIn;
  }

  function KeyOf(x: Touch): Key { Key(x.table, x.row) }

  lemma {:induction false} ReadStep(b: SerialBatch, u: nat, p: nat, k: Key)
    requires u < |b.txns| && p < |Program(b.txns[u])| && !Program(b.txns[u])[p].write
    ensures RowAt(b, u, p + 1, k) == RowAt(b, u, p, k)
    ensures SeenAt(b, u, p + 1) == SeenAt(b, u, p) + [RowAt(b, u, p, KeyOf(Program(b.txns[u])[p]))]
  {
    hide TpccJob, First, Program, WellFormed, Row0, SerialRun, LaneIn;
    JobShape(b.txns, LaneIn(b), b.width, u);
    OpAt(b.txns, LaneIn(b), b.width, u, p);
    AfterRead(JobOf(b), b.db, u, First(b.txns, u) + p, k);
  }

  lemma {:induction false} WriteStep(b: SerialBatch, u: nat, p: nat, k: Key)
    requires u < |b.txns| && p < |Program(b.txns[u])| && Program(b.txns[u])[p].write
    ensures SeenAt(b, u, p + 1) == SeenAt(b, u, p)
    ensures k != KeyOf(Program(b.txns[u])[p]) ==> RowAt(b, u, p + 1, k) == RowAt(b, u, p, k)
  {
    hide TpccJob, First, Program, WellFormed, Row0, SerialRun, LaneIn, WrittenRow;
    JobShape(b.txns, LaneIn(b), b.width, u);
    OpAt(b.txns, LaneIn(b), b.width, u, p);
    AfterWrite(JobOf(b), b.db, u, First(b.txns, u) + p, k);
  }

  lemma {:induction false} WrittenRowIs(b: SerialBatch, u: nat, p: nat)
    requires u < |b.txns| && p < |Program(b.txns[u])| && Program(b.txns[u])[p].write
    ensures var g, x := First(b.txns, u) + p, Program(b.txns[u])[p];
            && g < |JobOf(b).ops| && JobOf(b).ops[g].key == KeyOf(x)
            && RowAt(b, u, p + 1, KeyOf(x)) == WrittenRow(JobOf(b), g, SeenAt(b, u, p))
  {
    hide TpccJob, First, Program, WellFormed, Row0, SerialRun, WrittenRow, LaneIn;
    JobShape(b.txns, LaneIn(b), b.width, u);
    OpAt(b.txns, LaneIn(b), b.width, u, p);
    AfterWrite(JobOf(b), b.db, u, First(b.txns, u) + p, KeyOf(Program(b.txns[u])[p]));
  }

  /** What is written is what the lanes compute. */
  lemma {:induction false} WrittenIs(b: SerialBatch, u: nat, p: nat, i: nat)
    requires u < |b.txns| && p < |Program(b.txns[u])| && Program(b.txns[u])[p].write
    requires i < b.width(Program(b.txns[u])[p].table)
    ensures var x := Program(b.txns[u])[p];
            WordIn(RowAt(b, u, p + 1, KeyOf(x)), i) ==
            LaneWrite(b.txns[u], b.values(u), x, SeenAt(b, u, p), i, b.adder)
  {
    hide Program, RowAt, SeenAt, WrittenRow, LaneWrite, LaneAdding, WordIn, All, ExecutedAccesses;
    assert JobOf(b).lane == LaneAdding(b.txns, b.values, b.adder) && JobOf(b).width == b.width;
    LaneOf(b.txns, b.values, b.adder, u, p, SeenAt(b, u, p), i);
    WrittenRowIs(b, u, p);
    WrittenWord(JobOf(b), First(b.txns, u) + p, SeenAt(b, u, p), i);
  }

  /** Accesses that do not write the row keep it. */
  lemma {:induction false} RowKept(b: SerialBatch, u: nat, p: nat, q: nat, k: Key)
    requires u < |b.txns| && p <= q <= |Program(b.txns[u])|
    requires forall i: nat | p <= i < q :: Program(b.txns[u])[i].write ==> KeyOf(Program(b.txns[u])[i]) != k
    ensures RowAt(b, u, q, k) == RowAt(b, u, p, k)
    decreases q - p
  {
    hide RowAt, SeenAt, Program;
    if p < q {
      RowKept(b, u, p, q - 1, k);
      if Program(b.txns[u])[q - 1].write { WriteStep(b, u, q - 1, k); } else { ReadStep(b, u, q - 1, k); }
    }
  }

  /** A row is read and then written. */
  ghost predicate Updates(t: Params, p: nat) {
    && p + 1 < |Program(t)| && !Program(t)[p].write && Program(t)[p + 1].write
    && KeyOf(Program(t)[p]) == KeyOf(Program(t)[p + 1])
  }

  /** A word of a row that is read and written. */
  lemma {:induction false} Update(b: SerialBatch, u: nat, p: nat, i: nat, k: Key)
    requires u < |b.txns| && Updates(b.txns[u], p)
    ensures var x := Program(b.txns[u])[p];
            var y := Program(b.txns[u])[p + 1];
            var seen := SeenAt(b, u, p) + [RowAt(b, u, p, KeyOf(x))];
            && SeenAt(b, u, p + 2) == seen
            && (k != KeyOf(x) ==> RowAt(b, u, p + 2, k) == RowAt(b, u, p, k))
            && (i < b.width(x.table) ==> WordIn(RowAt(b, u, p + 2, KeyOf(x)), i) ==
                                         LaneWrite(b.txns[u], b.values(u), y, seen, i, b.adder))
            && Register(seen, i) == WordIn(RowAt(b, u, p, KeyOf(x)), i)
  {
    hide RowAt, SeenAt, Program, LaneWrite;
    ReadStep(b, u, p, k);
    WriteStep(b, u, p + 1, k);
    if i < b.width(Program(b.txns[u])[p].table) { WrittenIs(b, u, p + 1, i); }
  }
}
