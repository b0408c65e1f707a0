/** The executing threads as mutable state, stepped by the kernel's own branches, and the end of
    every run. */
module LockDevice {
  import opened Execution
  import opened Locks
  import opened LockSafety
  import Progress

  function Remainings(p: Program, s: LockState): (r: seq<int>)
    requires |p.start| == |p.token| + 1 && |s.threads| == |p.token|
    ensures |r| == |p.token| && forall u: nat | u < |r| :: r[u] == Remaining(p, s, u)
  {
    seq(|p.token|, u requires 0 <= u < |p.token| => Remaining(p, s, u))
  }

  /** Steps left to all threads together: two for each act, one when half of a release is done. */
  function StepsLeft(p: Program, s: LockState): int
    requires |p.start| == |p.token| + 1 && |s.threads| == |p.token|
  {
    Progress.Sum(Remainings(p, s))
  }

  lemma {:induction false} StepsLeftIsNatural(p: Program, l: Lists, rows: map<Key, Row>, s: LockState, m: nat)
    requires WellFormedProgram(p) && LockInv(p, l, rows, s, m)
    ensures StepsLeft(p, s) >= 0
  {
    forall u: nat | u < |p.token| ensures Remaining(p, s, u) >= 0 {
      assert ThreadOk(p, l, rows, s, u);
    }
    Progress.SumIsNatural(Remainings(p, s));
  }

  lemma {:induction false} StepsLeftShrink(p: Program, l: Lists, s: LockState, u: nat)
    requires |p.start| == |p.token| + 1 && |s.threads| == |p.token| && u < |p.token| && LockMoves(p, l, s, u)
    requires s.threads[u].phase.Handing? ==> p.acts[s.threads[u].pc].kind == Release
    ensures StepsLeft(p, LockStep(p, l, s, u)) < StepsLeft(p, s)
  {
    Progress.SumShrinks(Remainings(p, s), Remainings(p, LockStep(p, l, s, u)), u);
  }

  lemma {:induction false} SomebodyMoves(p: Program, l: Lists, rows: map<Key, Row>, s: LockState, m: nat, n: nat)
    returns (u: nat)
    requires LocksReady(p, l, m) && LockInv(p, l, rows, s, m) && n <= m
    requires exists v: nat :: v < n && s.threads[v].pc != p.start[v + 1]
    ensures u < n && LockMoves(p, l, s, u)
  {
    hide LockInv, LocksReady, ThreadOk, LockMoves, WellFormedProgram, Bracketed, InOrder;
    InvSize(p, l, rows, s, m);
    if v: nat :| v < n - 1 && s.threads[v].pc != p.start[v + 1] {
      u := SomebodyMoves(p, l, rows, s, m, n - 1);
    } else {
      u := n - 1;
      InvOfUnit(p, l, rows, s, m, u);
      SmallestTakesLock(p, l, rows, s, m, u);
    }
  }

  class Threads {
    var threads: seq<ThreadState>
    var lock: map<Key, nat>
    var offset: map<Key, nat>
    var data: Data

    function Now(): LockState
      reads this
    {
      LockState(threads, lock, offset, data)
    }

    constructor (p: Program, rows: map<Key, Row>)
      requires |p.start| == |p.token| + 1
      ensures Now() == LockInitial(p, rows)
    {
      threads := seq(|p.token|, u requires 0 <= u < |p.token| => ThreadState(p.start[u], Steady));
      lock := map[];
      offset := map[];
      data := Data(rows, map[]);
    }

    /** One poll of the spin in acquireLock. */
    method PollLock(p: Program, l: Lists, u: nat)
      requires |threads| == |p.token| && u < |p.token|
      modifies this`threads
      ensures threads == if HolderOf(l, old(Now()), p.acts[old(threads[u].pc)].key) == p.token[u]
                         then old(threads)[u := ThreadState(old(threads[u].pc) + 1, Steady)] else old(threads)
      requires threads[u].pc < |p.acts|
    {
      var k := p.acts[threads[u].pc].key;
      var currentLockHolder := if k in lock then lock[k] else l.access(k.table, l.base(k));
      if currentLockHolder == p.token[u] {
        threads := threads[u := ThreadState(threads[u].pc + 1, Steady)];
      }
    }

    /** releaseLock up to its fetch-and-add. */
    method AdvanceOffset(l: Lists, u: nat, k: Key)
      requires u < |threads|
      modifies this`threads, this`offset
      ensures var newOffset := OffsetOf(l, old(Now()), k) + 1;
              && offset == old(offset)[k := newOffset]
              && threads == old(threads)[u := ThreadState(old(threads[u].pc), Handing(newOffset))]
    {
      var newLockOffset := (if k in offset then offset[k] else l.base(k)) + 1;
      offset := offset[k := newLockOffset];
      threads := threads[u := ThreadState(threads[u].pc, Handing(newLockOffset))];
    }

    /** The rest of releaseLock: load the next name and store it in the lock. */
    method HandOver(l: Lists, u: nat, k: Key)
      requires u < |threads| && threads[u].phase.Handing?
      modifies this`threads, this`lock
      ensures lock == old(lock)[k := l.access(k.table, old(threads[u].phase.newOffset))]
      ensures threads == old(threads)[u := ThreadState(old(threads[u].pc) + 1, Steady)]
    {
      var newLockHolder := l.access(k.table, threads[u].phase.newOffset);
      lock := lock[k := newLockHolder];
      threads := threads[u := ThreadState(threads[u].pc + 1, Steady)];
    }

    method StepThread(p: Program, l: Lists, u: nat)
      requires |p.start| == |p.token| + 1 && |threads| == |p.token| && u < |p.token|
      requires threads[u].pc < p.start[u + 1] && threads[u].pc < |p.acts|
      modifies this
      ensures Now() == LockStep(p, l, old(Now()), u)
    {
      var g := threads[u].pc;
      match p.acts[g].kind {
        case Acquire =>
          PollLock(p, l, u);
        case Work =>
          var a := p.acts[g];
          var (row, local) := p.work(g, data.LocalOf(a.unit), data.RowOf(a.key));
          data := Data(data.rows[a.key := row], data.locals[a.unit := local]);
          threads := threads[u := ThreadState(g + 1, Steady)];
        case Release =>
          if threads[u].phase.Handing? {
            HandOver(l, u, p.acts[g].key);
          } else {
            AdvanceOffset(l, u, p.acts[g].key);
          }
      }
    }

    /** Runs the epoch, letting any thread that can move take the next step.  However they are
        picked, this ends, and the rows are those of the serial run. */
    method Execute(p: Program, l: Lists, ghost rows: map<Key, Row>)
      requires LocksReady(p, l, |p.token|) && Now() == LockInitial(p, rows)
      modifies this
      ensures |threads| == |p.token| && LockFinished(p, Now())
      ensures forall k: Key :: data.RowOf(k) == SerialData(p, rows, |p.acts|).RowOf(k)
    {
      ghost var m := |p.token|;
      LockInitialInv(p, l, rows, m);
      StepsLeftIsNatural(p, l, rows, Now(), m);
      while exists u: nat :: u < |threads| && LockMoves(p, l, Now(), u)
        invariant LockInv(p, l, rows, Now(), m) && StepsLeft(p, Now()) >= 0
        decreases StepsLeft(p, Now())
      {
        var u: nat :| u < |threads| && LockMoves(p, l, Now(), u);
        ghost var s := Now();
        assert ThreadOk(p, l, rows, s, u);
        StepThread(p, l, u);
        LockStepKeepsInv(p, l, rows, s, m, u);
        StepsLeftShrink(p, l, s, u);
        StepsLeftIsNatural(p, l, rows, Now(), m);
      }
      MoveUntilFinished(p, l, rows, Now());
    }
  }

  lemma {:induction false} MoveUntilFinished(p: Program, l: Lists, rows: map<Key, Row>, s: LockState)
    requires LocksReady(p, l, |p.token|) && LockInv(p, l, rows, s, |p.token|)
    requires forall u: nat | u < |p.token| :: !LockMoves(p, l, s, u)
    ensures LockFinished(p, s)
    ensures forall k: Key :: s.data.RowOf(k) == SerialData(p, rows, |p.acts|).RowOf(k)
  {
    if v: nat :| v < |p.token| && s.threads[v].pc != p.start[v + 1] {
      var u := SomebodyMoves(p, l, rows, s, |p.token|, |p.token|);
    }
    forall k: Key ensures s.data.RowOf(k) == SerialData(p, rows, |p.acts|).RowOf(k) {
      if |p.token| > 0 {
        LockedRunIsSerial(p, l, rows, s, k, 0);
      } else {
        assert Front(p, s, k, 0);
        assert KeyOk(p, l, rows, s, k, 0);
      }
    }
  }
}
