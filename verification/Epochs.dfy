/** Epoch after epoch: the side written in one epoch is what the next one starts from. */
module Epochs {
  import opened Accesses
  import opened Execution
  import opened SerialEquivalence

  /** One epoch of a run: its batch, its plan, and the interleaving that happened. */
  datatype EpochRun = EpochRun(job: Job, loc: seq<Loc>, schedule: seq<nat>)

  ghost predicate Planned(r: EpochRun, width: nat -> nat) {
    && WellFormed(r.job)
    && r.job.width == width
    && PlanOk(r.job.ops, r.loc, TableOf)
    && forall i | 0 <= i < |r.schedule| :: r.schedule[i] < NumUnits(r.job)
  }

  ghost predicate AllPlanned(runs: seq<EpochRun>, width: nat -> nat) {
    forall e | 0 <= e < |runs| :: Planned(runs[e], width)
  }

  /** Epochs are numbered from 1. */
  ghost function ConfigOf(r: EpochRun, epoch: nat, begin: Memory): Config {
    Config(r.job, r.loc, epoch, begin)
  }

  /** Memory after the first e epochs. */
  ghost function MemoryAfter(m: Memory, runs: seq<EpochRun>, width: nat -> nat, e: nat): Memory
    requires AllPlanned(runs, width) && e <= |runs|
  {
    if e == 0 then m
    else Run(ConfigOf(runs[e - 1], e, MemoryAfter(m, runs, width, e - 1)), runs[e - 1].schedule).mem
  }

  /** Epoch e (counting from 1) ran to completion. */
  ghost predicate Completed(m: Memory, runs: seq<EpochRun>, width: nat -> nat, e: nat)
    requires AllPlanned(runs, width) && 0 < e <= |runs|
  {
    var c := ConfigOf(runs[e - 1], e, MemoryAfter(m, runs, width, e - 1));
    Finished(c, Run(c, runs[e - 1].schedule))
  }

  /** The same batches, run serially one after the other. */
  ghost function SerialAfter(db: Database, runs: seq<EpochRun>, width: nat -> nat, e: nat): Database
    requires AllPlanned(runs, width) && e <= |runs|
  {
    if e == 0 then db else SerialResult(runs[e - 1].job, SerialAfter(db, runs, width, e - 1))
  }

  /** A serial run depends only on the rows of its database. */
  lemma {:induction false} SameRowsSameRun(j: Job, db: Database, db': Database, u: nat, p: nat)
    requires WellFormed(j) && u < NumUnits(j) && j.start[u] <= p <= j.start[u + 1]
    requires forall k :: db(k) == db'(k)
    ensures SerialRun(j, db, u, p) == SerialRun(j, db', u, p)
    decreases u, 1, p
  {
    hide SerialOp, SerialRun, SerialStore;
    StartRuns(j, u);
    if p == j.start[u] {
      RunBegins(j, db, u);
      RunBegins(j, db', u);
      if u > 0 { SameRowsSameRun(j, db, db', u - 1, p); }
    } else {
      RunGoesOn(j, db, u, p);
      RunGoesOn(j, db', u, p);
      hide WellFormed;
      SameRowsSameRun(j, db, db', u, p - 1);
      SameRowsSameOp(j, db, db', SerialRun(j, db, u, p - 1), p - 1);
    }
  }

  lemma StartRuns(j: Job, u: nat)
    requires WellFormed(j) && u < NumUnits(j)
    ensures j.start[u + 1] <= |j.ops| && (u > 0 ==> j.start[u - 1] <= j.start[u])
  {
    StartsInRange(j, u + 1);
  }

  lemma RunBegins(j: Job, db: Database, u: nat)
    requires WellFormed(j) && u < NumUnits(j) && j.start[u] <= j.start[u + 1]
    requires u > 0 ==> j.start[u - 1] <= j.start[u]
    ensures SerialRun(j, db, u, j.start[u]) ==
            if u == 0 then Serial(map[], []) else Serial(SerialRun(j, db, u - 1, j.start[u]).store, [])
  {
    hide WellFormed, SerialOp;
  }

  lemma {:induction false} SameRowsSameOp(j: Job, db: Database, db': Database, s: Serial, g: nat)
    requires g < |j.ops| && forall k :: db(k) == db'(k)
    ensures SerialOp(j, db, s, g) == SerialOp(j, db', s, g)
  {}

  lemma {:induction false} SameRowsSameResult(j: Job, db: Database, db': Database, k: Key)
    requires WellFormed(j) && forall k :: db(k) == db'(k)
    ensures SerialResult(j, db)(k) == SerialResult(j, db')(k)
  {
    if NumUnits(j) > 0 {
      SameRowsSameRun(j, db, db', NumUnits(j) - 1, j.start[NumUnits(j)]);
    }
  }

  /** Over any number of epochs, any plans that are correct and any interleavings that finish,
      memory holds the serial result of all the batches so far, and the tags are such that the
      next epoch's readers and writers will again agree on the two sides of every record. */
  lemma {:induction false} RunIsSerial(m: Memory, runs: seq<EpochRun>, width: nat -> nat, e: nat)
    requires AllPlanned(runs, width) && e <= |runs|
    requires HandOff(m, 1)
    requires forall i | 0 < i <= e :: Completed(m, runs, width, i)
    ensures HandOff(MemoryAfter(m, runs, width, e), e + 1)
    ensures forall k ::
              Contents(MemoryAfter(m, runs, width, e), width)(k) == SerialAfter(Contents(m, width), runs, width, e)(k)
  {
    hide AllPlanned, HandOff, Completed, Contents, SerialResult, Run;
    if e > 0 {
      RunIsSerial(m, runs, width, e - 1);
      var before := MemoryAfter(m, runs, width, e - 1);
      OneMoreEpoch(m, runs, width, e);
      forall k ensures Contents(MemoryAfter(m, runs, width, e), width)(k) ==
             SerialAfter(Contents(m, width), runs, width, e)(k) {
        SameRowsSameResult(runs[e - 1].job, Contents(before, width),
          SerialAfter(Contents(m, width), runs, width, e - 1), k);
      }
    }
  }

  lemma {:induction false} OneMoreEpoch(m: Memory, runs: seq<EpochRun>, width: nat -> nat, e: nat)
    requires AllPlanned(runs, width) && 0 < e <= |runs| && Completed(m, runs, width, e)
    requires HandOff(MemoryAfter(m, runs, width, e - 1), e)
    ensures WellFormed(runs[e - 1].job) && HandOff(MemoryAfter(m, runs, width, e), e + 1)
    ensures forall k :: Contents(MemoryAfter(m, runs, width, e), width)(k) ==
                        SerialResult(runs[e - 1].job, Contents(MemoryAfter(m, runs, width, e - 1), width))(k)
  {
    hide HandOff, Contents, SerialResult, Run, WellFormed, PlanOk, Finished;
    assert Planned(runs[e - 1], width);
    EpochIsSerial(ConfigOf(runs[e - 1], e, MemoryAfter(m, runs, width, e - 1)), runs[e - 1].schedule);
  }

  /** Freshly allocated memory is all zeros, which is a valid start. */
  lemma ZeroMemoryHandsOff()
    ensures HandOff(Memory(map[], map[]), 1)
  {}
}
