/** Why units that take the same lock need different names: two with the same name can be inside
    the row's section together. */
module LockNames {
  import opened Execution
  import opened Locks
  import opened LockSafety
  import opened LockDevice

  lemma ReadySize(p: Program, l: Lists, m: nat)
    requires LocksReady(p, l, m)
    ensures |p.start| == |p.token| + 1 && m <= |p.token|
  {
    hide Bracketed, ListsOk, NamesDistinct;
  }

  /** The first m units can always be run to their ends before anybody else starts. */
  lemma {:induction false} FinishFirst(p: Program, l: Lists, rows: map<Key, Row>, m: nat, schedule: seq<nat>)
    returns (longer: seq<nat>)
    requires LocksReady(p, l, m) && forall i | 0 <= i < |schedule| :: schedule[i] < m
    ensures forall i | 0 <= i < |longer| :: longer[i] < m
    ensures forall u: nat | u < m :: LockRun(p, l, rows, longer).threads[u].pc == p.start[u + 1]
    decreases StepsLeft(p, LockRun(p, l, rows, schedule))
  {
    hide LockInv, LocksReady, ThreadOk, LockMoves, WellFormedProgram, Bracketed, InOrder, StepsLeft, LockStep;
    ReadySize(p, l, m);
    var s := LockRun(p, l, rows, schedule);
    LockRunKeepsInv(p, l, rows, m, schedule);
    InvSize(p, l, rows, s, m);
    if v: nat :| v < m && s.threads[v].pc != p.start[v + 1] {
      var u := SomebodyMoves(p, l, rows, s, m, m);
      InvOfUnit(p, l, rows, s, m, u);
      StepsLeftShrink(p, l, s, u);
      StepsLeftIsNatural(p, l, rows, s, m);
      assert (schedule + [u])[..|schedule|] == schedule;
      longer := FinishFirst(p, l, rows, m, schedule + [u]);
    } else {
      longer := schedule;
    }
  }

  /** Unit u begins by taking the lock of row k. */
  ghost predicate BeginsWith(p: Program, u: nat, k: Key)
    requires WellFormedProgram(p)
  {
    u < |p.token| && p.start[u] < p.start[u + 1] <= |p.acts| && p.acts[p.start[u]] == Act(Acquire, k, u)
  }

  lemma {:induction false} JustInside(p: Program, s: LockState, u: nat, k: Key)
    requires WellFormedProgram(p) && Bracketed(p) && BeginsWith(p, u, k)
    requires |s.threads| == |p.token| && s.threads[u].pc == p.start[u] + 1
    ensures Inside(p, s, u, k)
  {
    assert Acquires(p, k, p.start[u]) == Releases(p, k, p.start[u]);
  }

  /** Two units of the same name that begin with the same lock can both be let in. */
  lemma {:induction false} SameNameBothInside(p: Program, l: Lists, rows: map<Key, Row>, u: nat, v: nat, k: Key)
    returns (schedule: seq<nat>)
    requires LocksReady(p, l, u) && WellFormedProgram(p) && u < v && BeginsWith(p, u, k) && BeginsWith(p, v, k)
             && p.token[u] == p.token[v]
    ensures forall i | 0 <= i < |schedule| :: schedule[i] < |p.token|
    ensures Inside(p, LockRun(p, l, rows, schedule), u, k) && Inside(p, LockRun(p, l, rows, schedule), v, k)
  {
    hide LockInv, LocksReady, WellFormedProgram, LockRun, LockStep, Bracketed;
    NamesFit(p, l, u, v, k);
    var first := FinishFirst(p, l, rows, u, []);
    var s := LockRun(p, l, rows, first);
    LockRunKeepsInv(p, l, rows, u, first);
    OthersAtStart(p, l, rows, s, u, u);
    OthersAtStart(p, l, rows, s, u, v);
    SmallestTakesLock(p, l, rows, s, u, u);
    FreeForIt(p, l, s, u, k);
    BothLetIn(p, l, s, u, v, k);
    TwoMoreSteps(p, l, rows, first, u, v);
    schedule := first + [u] + [v];
  }

  lemma NamesFit(p: Program, l: Lists, u: nat, v: nat, k: Key)
    requires LocksReady(p, l, u) && WellFormedProgram(p) && BeginsWith(p, u, k) && BeginsWith(p, v, k)
    ensures |p.start| == |p.token| + 1 && u < |p.token| && v < |p.token| && Bracketed(p)
    ensures p.start[u] < p.start[u + 1] <= |p.acts| && p.acts[p.start[u]] == Act(Acquire, k, u)
  {
    hide Bracketed, ListsOk, NamesDistinct;
  }

  lemma OthersAtStart(p: Program, l: Lists, rows: map<Key, Row>, s: LockState, m: nat, v: nat)
    requires LocksReady(p, l, m) && LockInv(p, l, rows, s, m) && m <= v < |p.token|
    ensures |p.start| == |p.token| + 1 && |s.threads| == |p.token|
    ensures s.threads[v] == ThreadState(p.start[v], Steady)
  {
    hide Bracketed, ListsOk, NamesDistinct;
  }

  lemma FreeForIt(p: Program, l: Lists, s: LockState, u: nat, k: Key)
    requires |p.start| == |p.token| + 1 && |s.threads| == |p.token| && u < |p.token|
    requires p.start[u] < p.start[u + 1] <= |p.acts| && p.acts[p.start[u]] == Act(Acquire, k, u)
    requires s.threads[u] == ThreadState(p.start[u], Steady) && LockMoves(p, l, s, u)
    ensures HolderOf(l, s, k) == p.token[u]
  {}

  lemma TwoMoreSteps(p: Program, l: Lists, rows: map<Key, Row>, first: seq<nat>, u: nat, v: nat)
    requires |p.start| == |p.token| + 1 && u < |p.token| && v < |p.token|
    requires forall i | 0 <= i < |first| :: first[i] < |p.token|
    ensures LockRun(p, l, rows, first + [u] + [v]) ==
            LockStep(p, l, LockStep(p, l, LockRun(p, l, rows, first), u), v)
  {
    hide LockStep;
    assert (first + [u] + [v])[..|first| + 1] == first + [u] && (first + [u])[..|first|] == first;
  }

  lemma {:induction false} BothLetIn(p: Program, l: Lists, s: LockState, u: nat, v: nat, k: Key)
    requires WellFormedProgram(p) && Bracketed(p) && |s.threads| == |p.token| && u < v
    requires BeginsWith(p, u, k) && BeginsWith(p, v, k) && p.token[u] == p.token[v]
    requires s.threads[u].pc == p.start[u] && s.threads[v].pc == p.start[v] && HolderOf(l, s, k) == p.token[u]
    ensures Inside(p, LockStep(p, l, LockStep(p, l, s, u), v), u, k)
    ensures Inside(p, LockStep(p, l, LockStep(p, l, s, u), v), v, k)
  {
    var s' := LockStep(p, l, LockStep(p, l, s, u), v);
    JustInside(p, s', u, k);
    JustInside(p, s', v, k);
  }
}
