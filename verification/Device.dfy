/** The executing device: storage and warps as mutable fields, stepped by the kernel's own
    branches.  Every step does exactly what module Execution says, so every run of the device
    inherits the theorems. */
module DeviceExecution {
  import opened Accesses
  import opened Execution
  import opened SerialEquivalence
  import opened Progress
  import opened Tickets

  class Device {
    var tags: map<Cell, nat>
    var words: map<(Cell, nat), Word>
    var units: seq<UnitState>

    function Mem(): Memory
      reads this
    {
      Memory(tags, words)
    }

    function Now(): State
      reads this
    {
      State(Mem(), units)
    }

    constructor (c: Config)
      requires |c.job.start| > 0
      ensures Now() == Initial(c)
    {
      tags := c.begin.tags;
      words := c.begin.words;
      units := seq(NumUnits(c.job), u requires 0 <= u < NumUnits(c.job) => UnitState(c.job.start[u], Idle, []));
    }

    /** Starts the kernel for the next epoch's units; storage stays as it is. */
    method Launch(job: Job)
      requires |job.start| > 0
      modifies this`units
      ensures units == seq(NumUnits(job), u requires 0 <= u < NumUnits(job) => UnitState(job.start[u], Idle, []))
    {
      units := seq(NumUnits(job), u requires 0 <= u < NumUnits(job) => UnitState(job.start[u], Idle, []));
    }

    method LoadVersion(cell: Cell) returns (version: nat)
      ensures version == Mem().Tag(cell)
    {
      if cell in tags { version := tags[cell]; } else { version := 0; }
    }

    /** The leader lane of a read chooses the cell, and whether to spin on its version. */
    method ChooseReadCell(k: Key, loc: Loc, epoch: nat) returns (phase: Phase)
      ensures phase == SelectRead(Mem(), k, loc, epoch)
    {
      var cell1, cell2 := RecordCell(k, One), RecordCell(k, Two);
      var version1 := LoadVersion(cell1);
      var version2 := LoadVersion(cell2);
      if loc == RecordA {
        if version1 == epoch {
          phase := Loading(cell2, []);
        } else if version2 == epoch {
          phase := Loading(cell1, []);
        } else if version1 < version2 {
          phase := Loading(cell2, []);
        } else {
          phase := Loading(cell1, []);
        }
      } else if loc == RecordB {
        if version1 == epoch {
          phase := Loading(cell1, []);
        } else if version2 == epoch {
          phase := Loading(cell2, []);
        } else if version1 < version2 {
          phase := Waiting(cell1);
        } else {
          phase := Waiting(cell2);
        }
      } else {
        phase := Waiting(VersionCell(k.table, loc.slot));
      }
    }

    /** The leader lane of a write chooses the cell. */
    method ChooseWriteCell(k: Key, loc: Loc) returns (phase: Phase)
      requires loc != RecordA
      ensures phase == SelectStore(Mem(), k, loc)
    {
      if loc == RecordB {
        var version1 := LoadVersion(RecordCell(k, One));
        var version2 := LoadVersion(RecordCell(k, Two));
        phase := Storing(RecordCell(k, if version1 < version2 then One else Two), 0);
      } else {
        phase := Storing(VersionCell(k.table, loc.slot), 0);
      }
    }

    /** One step of the warp that runs unit u. */
    method StepUnit(c: Config, u: nat)
      requires |c.loc| == |c.job.ops| && |c.job.start| == |units| + 1 && u < |units|
      requires units[u].pc < c.job.start[u + 1] && units[u].pc < |c.job.ops|
      requires c.job.ops[units[u].pc].write ==> c.loc[units[u].pc] != RecordA
      modifies this
      ensures Now() == Step(c, old(Now()), u)
    {
      var t := units[u];
      var g := t.pc;
      var op := c.job.ops[g];
      match t.phase {
        case Idle =>
          var phase;
          if op.write {
            phase := ChooseWriteCell(op.key, c.loc[g]);
          } else {
            phase := ChooseReadCell(op.key, c.loc[g], c.epoch);
          }
          units := units[u := t.(phase := phase)];
        case Waiting(cell) =>
          var version := LoadVersion(cell);
          if version == c.epoch {
            units := units[u := t.(phase := Loading(cell, []))];
          }
        case Loading(cell, got) =>
          if |got| < WidthOf(c.job, op.key) {
            units := units[u := t.(phase := Loading(cell, got + [Mem().WordAt(cell, |got|)]))];
          } else {
            units := units[u := UnitState(g + 1, Idle, t.seen + [got])];
          }
        case Storing(cell, stored) =>
          if stored < WidthOf(c.job, op.key) {
            words := words[(cell, stored) := c.job.lane(g, t.seen, stored)];
            units := units[u := t.(phase := Storing(cell, stored + 1))];
          } else {
            tags := tags[cell := c.epoch];
            units := units[u := UnitState(g + 1, Idle, t.seen)];
          }
      }
    }

    /** Runs the epoch, letting any unit that can move take the next step.  However the units
        are picked, this ends, with the serial result in memory and the next epoch ready. */
    method Execute(c: Config)
      requires Ready(c) && Now() == Initial(c)
      modifies this
      ensures |units| == NumUnits(c.job) && Finished(c, Now())
      ensures HandOff(Mem(), c.epoch + 1)
      ensures forall k :: Contents(Mem(), c.job.width)(k) == SerialResult(c.job, Db(c))(k)
    {
      InitialInv(c);
      TotalIsNatural(c, Now());
      while exists u: nat :: u < |units| && Moves(c, Now(), u)
        invariant Inv(c, Now()) && PcsInRange(c, Now()) && TotalLeft(c, Now()) >= 0
        decreases TotalLeft(c, Now())
      {
        var u: nat :| u < |units| && Moves(c, Now(), u);
        ghost var s := Now();
        StepIsAllowed(c, s, u);
        StepUnit(c, u);
        StepKeepsInv(c, s, u);
        TotalShrinks(c, s, u);
        TotalIsNatural(c, Now());
      }
      MovesUntilFinished(c, Now());
      FinalHandOff(c, Now());
      forall k ensures Contents(Mem(), c.job.width)(k) == SerialResult(c.job, Db(c))(k) {
        FinalContents(c, Now(), k);
      }
    }
  }

  lemma {:induction false} StepIsAllowed(c: Config, s: State, u: nat)
    requires Ready(c) && Inv(c, s) && u < NumUnits(c.job) && Moves(c, s, u)
    ensures s.units[u].pc < c.job.start[u + 1] && s.units[u].pc < |c.job.ops|
    ensures c.job.ops[s.units[u].pc].write ==> c.loc[s.units[u].pc] != RecordA
  {}

  /** No state is stuck: where no unit can move, all are finished. */
  lemma {:induction false} MovesUntilFinished(c: Config, s: State)
    requires Ready(c) && Inv(c, s) && forall u: nat | u < |s.units| :: !Moves(c, s, u)
    ensures Finished(c, s)
  {
    if !Finished(c, s) {
      var u := StridedProgress(c, s, 1);
    }
  }
}
