/** What a transaction that uses a row twice does to the transactions after it: both of its pieces
    are let in, the one that is released later stores the older name, and the lock names a finished
    transaction for good. */
module LockStarvation {
  import opened Execution
  import opened GaccoYcsb
  import opened Locks
  import opened LockPrograms
  import opened YcsbSubmitter

  // ------------------------------------------------------------------ one after the other

  /** Where unit u is when the acts before g have been performed in order. */
  function PcAt(p: Program, u: nat, g: nat): nat
    requires u < |p.token| && |p.start| == |p.token| + 1
  {
    if g < p.start[u] then p.start[u] else if g > p.start[u + 1] then p.start[u + 1] else g
  }

  /** The lock of row k is as the acts before g leave it. */
  ghost predicate LockAt(p: Program, l: Lists, s: LockState, k: Key, g: nat)
    requires g <= |p.acts|
  {
    var n := l.base(k) + Releases(p, k, g);
    HolderOf(l, s, k) == l.access(k.table, n) && OffsetOf(l, s, k) == n
  }

  /** The acts before g have been performed in order, and no other. */
  ghost predicate SerialAt(p: Program, l: Lists, s: LockState, g: nat)
    requires WellFormedProgram(p) && g <= |p.acts|
  {
    && |s.threads| == |p.token|
    && (forall u: nat | u < |p.token| :: s.threads[u] == ThreadState(PcAt(p, u, g), Steady))
    && (forall k: Key :: LockAt(p, l, s, k, g))
  }

  lemma {:induction false} NextPcs(p: Program, g: nat, u: nat)
    requires WellFormedProgram(p) && g < |p.acts| && u < |p.token|
    ensures PcAt(p, u, g + 1) == if u == p.acts[g].unit then g + 1 else PcAt(p, u, g)
    ensures u == p.acts[g].unit ==> PcAt(p, u, g) == g < p.start[u + 1]
  {
    var w := p.acts[g].unit;
    if u < w { assert p.start[u + 1] <= p.start[w]; }
    if w < u { assert p.start[w + 1] <= p.start[u]; }
  }

  lemma ProgramShape(p: Program)
    requires WellFormedProgram(p)
    ensures |p.start| == |p.token| + 1 && forall g: nat | g < |p.acts| :: p.acts[g].unit < |p.token|
  {}

  /** The state with one unit one act further on, and every lock as the acts before leave it. */
  lemma {:induction false} NextSerial(p: Program, l: Lists, s: LockState, s': LockState, g: nat, h: nat)
    requires WellFormedProgram(p) && g < |p.acts| && SerialAt(p, l, s, g) && h == g + 1
    requires p.acts[g].unit < |s.threads| && s'.threads == s.threads[p.acts[g].unit := ThreadState(h, Steady)]
    requires forall k: Key :: LockAt(p, l, s', k, h)
    ensures SerialAt(p, l, s', h)
  {
    hide LockAt, PcAt, WellFormedProgram;
    ProgramShape(p);
    forall v: nat | v < |p.token| ensures s'.threads[v] == ThreadState(PcAt(p, v, h), Steady) {
      NextPcs(p, g, v);
    }
  }

  /** The unit whose act is next. */
  lemma {:induction false} NextUnit(p: Program, l: Lists, s: LockState, g: nat)
    requires WellFormedProgram(p) && g < |p.acts| && SerialAt(p, l, s, g)
    ensures |p.start| == |p.token| + 1 && |s.threads| == |p.token|
    ensures p.acts[g].unit < |p.token| && g < p.start[p.acts[g].unit + 1]
    ensures s.threads[p.acts[g].unit] == ThreadState(g, Steady)
  {
    hide LockAt;
    NextPcs(p, g, p.acts[g].unit);
  }

  lemma SerialLock(p: Program, l: Lists, s: LockState, k: Key, g: nat)
    requires WellFormedProgram(p) && g <= |p.acts| && SerialAt(p, l, s, g)
    ensures LockAt(p, l, s, k, g)
  {}

  /** An act that leaves the locks alone. */
  lemma {:induction false} QuietAct(p: Program, l: Lists, s: LockState, g: nat)
    requires WellFormedProgram(p) && Bracketed(p) && ListsOk(p, l) && g < |p.acts| && SerialAt(p, l, s, g)
    requires p.acts[g].kind != Release
    ensures p.acts[g].unit < |p.token| == |s.threads| && |p.start| == |p.token| + 1
    ensures SerialAt(p, l, LockStep(p, l, s, p.acts[g].unit), g + 1)
  {
    hide SerialAt, Bracketed, ListsOk, PcAt, WellFormedProgram;
    var u := p.acts[g].unit;
    NextUnit(p, l, s, g);
    ListNamesUnit(p, l, g);
    SerialLock(p, l, s, p.acts[g].key, g);
    var s' := LockStep(p, l, s, u);
    var h := g + 1;
    forall k: Key ensures LockAt(p, l, s', k, h) {
      SerialLock(p, l, s, k, g);
    }
    NextSerial(p, l, s, s', g, h);
  }

  lemma {:induction false} ReleaseAct(p: Program, l: Lists, s: LockState, g: nat)
    requires WellFormedProgram(p) && g < |p.acts| && SerialAt(p, l, s, g) && p.acts[g].kind == Release
    ensures p.acts[g].unit < |p.token| == |s.threads| && |p.start| == |p.token| + 1
    ensures SerialAt(p, l, LockStep(p, l, LockStep(p, l, s, p.acts[g].unit), p.acts[g].unit), g + 1)
  {
    hide SerialAt, PcAt, WellFormedProgram;
    var u, k := p.acts[g].unit, p.acts[g].key;
    NextUnit(p, l, s, g);
    var n := OffsetOf(l, s, k) + 1;
    var s1 := LockStep(p, l, s, u);
    assert s1 == s.(threads := s.threads[u := ThreadState(g, Handing(n))], offset := s.offset[k := n]);
    var s2 := LockStep(p, l, s1, u);
    assert s2 == s1.(threads := s1.threads[u := ThreadState(g + 1, Steady)],
                     lock := s1.lock[k := l.access(k.table, n)]);
    assert s2.threads == s.threads[u := ThreadState(g + 1, Steady)];
    hide LockStep;
    var h := g + 1;
    forall k': Key ensures LockAt(p, l, s2, k', h) {
      SerialLock(p, l, s, k', g);
    }
    NextSerial(p, l, s, s2, g, h);
  }

  lemma {:induction false} RunSteps(p: Program, l: Lists, rows: map<Key, Row>, schedule: seq<nat>, u: nat)
    requires |p.start| == |p.token| + 1 && IsSchedule(p, schedule) && u < |p.token|
    ensures IsSchedule(p, schedule + [u])
    ensures LockRun(p, l, rows, schedule + [u]) == LockStep(p, l, LockRun(p, l, rows, schedule), u)
  {
    hide LockStep;
    assert (schedule + [u])[..|schedule|] == schedule;
  }

  lemma {:induction false} OneMoreAct(p: Program, l: Lists, rows: map<Key, Row>, before: seq<nat>, g: nat)
    returns (schedule: seq<nat>)
    requires WellFormedProgram(p) && Bracketed(p) && ListsOk(p, l) && g < |p.acts|
    requires IsSchedule(p, before) && SerialAt(p, l, LockRun(p, l, rows, before), g)
    ensures |p.start| == |p.token| + 1
    ensures IsSchedule(p, schedule) && SerialAt(p, l, LockRun(p, l, rows, schedule), g + 1)
  {
    hide SerialAt, Bracketed, ListsOk, LockStep, LockRun;
    var u := p.acts[g].unit;
    RunSteps(p, l, rows, before, u);
    if p.acts[g].kind == Release {
      RunSteps(p, l, rows, before + [u], u);
      ReleaseAct(p, l, LockRun(p, l, rows, before), g);
      schedule := before + [u] + [u];
    } else {
      QuietAct(p, l, LockRun(p, l, rows, before), g);
      schedule := before + [u];
    }
  }

  /** Whatever the names are, the units can run one after the other. */
  lemma {:induction false} SerialSchedule(p: Program, l: Lists, rows: map<Key, Row>, g: nat)
    returns (schedule: seq<nat>)
    requires WellFormedProgram(p) && Bracketed(p) && ListsOk(p, l) && g <= |p.acts|
    ensures |p.start| == |p.token| + 1
    ensures IsSchedule(p, schedule) && SerialAt(p, l, LockRun(p, l, rows, schedule), g)
    decreases g
  {
    hide SerialAt, Bracketed, ListsOk, LockStep, LockRun, IsSchedule, WellFormedProgram;
    ProgramShape(p);
    if g == 0 {
      schedule := [];
      NothingDone(p, l, rows);
    } else {
      var before := SerialSchedule(p, l, rows, g - 1);
      schedule := OneMoreAct(p, l, rows, before, g - 1);
    }
  }

  lemma NothingDone(p: Program, l: Lists, rows: map<Key, Row>)
    requires WellFormedProgram(p)
    ensures |p.start| == |p.token| + 1 && IsSchedule(p, []) && SerialAt(p, l, LockRun(p, l, rows, []), 0)
  {}

  // ------------------------------------------------------------------ two pieces at once

  function KeyOfPiece(ps: seq<Param>, u: nat): Key
    requires ParamsOk(ps) && u < PIECES * |ps|
  {
    Key(0, RowOfPiece(ps, u))
  }

  /** u and v are pieces of one transaction on one row, v is the transaction's last on the row, and
      there is none between them. */
  ghost predicate LastTwo(ps: seq<Param>, u: nat, v: nat)
    requires ParamsOk(ps)
  {
    && u < v < PIECES * |ps| && Clash(ps, u, v)
    && (forall w: nat | u < w < PIECES * |ps| && RowOfPiece(ps, w) == RowOfPiece(ps, u) && w != v ::
          v < w && w / PIECES != v / PIECES)
  }

  /** A transaction has used row k twice, the lock names that transaction, and all of its pieces on
      the row are finished; nobody else on the row has begun. */
  ghost predicate NamedForGood(ps: seq<Param>, l: Lists, s: LockState, v: nat)
    requires ParamsOk(ps) && v < PIECES * |ps|
  {
    && |s.threads| == PIECES * |ps| && HolderOf(l, s, KeyOfPiece(ps, v)) == v / PIECES
    && (forall w: nat | w < PIECES * |ps| && KeyOfPiece(ps, w) == KeyOfPiece(ps, v) ::
          if w <= v then s.threads[w].pc == 3 * w + 3
          else s.threads[w] == ThreadState(3 * w, Steady) && w / PIECES != v / PIECES)
  }

  /** The program as arithmetic: piece u is acts 3 u to 3 u + 2. */
  lemma {:induction false} PieceAct(ps: seq<Param>, work: (nat, Local, Row) -> (Row, Local), u: nat)
    requires ParamsOk(ps) && u < PIECES * |ps|
    ensures var p, k := YcsbProgram(ps, work), KeyOfPiece(ps, u);
            && |p.start| == |p.token| + 1 && |p.token| == PIECES * |ps| && |p.acts| == 3 * (PIECES * |ps|)
            && p.start[u] == 3 * u && p.start[u + 1] == 3 * u + 3 && p.token[u] == u / PIECES
            && p.acts[3 * u] == Act(Acquire, k, u) && p.acts[3 * u + 1] == Act(Work, k, u)
            && p.acts[3 * u + 2] == Act(Release, k, u)
  {
    hide YcsbProgram, ParamsOk;
    StartOfPiece(ps, work, u);
    StartOfPiece(ps, work, u + 1);
    ActOfPiece(ps, work, 3 * u);
    ActOfPiece(ps, work, 3 * u + 1);
    ActOfPiece(ps, work, 3 * u + 2);
  }

  /** No step of anybody changes that. */
  lemma {:induction false} StaysNamed(ps: seq<Param>, work: (nat, Local, Row) -> (Row, Local), l: Lists, s: LockState,
                                      v: nat, y: nat)
    requires ParamsOk(ps) && v < PIECES * |ps| && y < PIECES * |ps| && NamedForGood(ps, l, s, v)
    requires |YcsbProgram(ps, work).start| == |YcsbProgram(ps, work).token| + 1
    requires |YcsbProgram(ps, work).token| == PIECES * |ps|
    requires 3 * y <= s.threads[y].pc
    ensures NamedForGood(ps, l, LockStep(YcsbProgram(ps, work), l, s, y), v)
    ensures forall w: nat | w < PIECES * |ps| ::
              s.threads[w].pc <= LockStep(YcsbProgram(ps, work), l, s, y).threads[w].pc
  {
    hide YcsbProgram, ParamsOk;
    PieceAct(ps, work, y);
    var p := YcsbProgram(ps, work);
    var g := s.threads[y].pc;
    if g < p.start[y + 1] {
      assert g == 3 * y || g == 3 * y + 1 || g == 3 * y + 2;
      assert p.acts[g].key == KeyOfPiece(ps, y);
    }
  }

  ghost predicate PcsRight(ps: seq<Param>, s: LockState)
    requires ParamsOk(ps)
  {
    |s.threads| == PIECES * |ps| && forall w: nat | w < PIECES * |ps| :: 3 * w <= s.threads[w].pc
  }

  lemma {:induction false} StaysNamedInRun(ps: seq<Param>, work: (nat, Local, Row) -> (Row, Local), l: Lists,
                                           rows: map<Key, Row>, schedule: seq<nat>, more: seq<nat>, v: nat)
    requires ParamsOk(ps) && v < PIECES * |ps|
    requires |YcsbProgram(ps, work).start| == |YcsbProgram(ps, work).token| + 1
    requires |YcsbProgram(ps, work).token| == PIECES * |ps|
    requires IsSchedule(YcsbProgram(ps, work), schedule) && IsSchedule(YcsbProgram(ps, work), more)
    requires NamedForGood(ps, l, LockRun(YcsbProgram(ps, work), l, rows, schedule), v)
    requires PcsRight(ps, LockRun(YcsbProgram(ps, work), l, rows, schedule))
    ensures IsSchedule(YcsbProgram(ps, work), schedule + more)
    ensures NamedForGood(ps, l, LockRun(YcsbProgram(ps, work), l, rows, schedule + more), v)
    ensures PcsRight(ps, LockRun(YcsbProgram(ps, work), l, rows, schedule + more))
    decreases |more|
  {
    hide YcsbProgram, ParamsOk, NamedForGood, LockStep, LockRun;
    var p := YcsbProgram(ps, work);
    if more == [] {
      assert schedule + more == schedule;
    } else {
      var front, y := more[..|more| - 1], more[|more| - 1];
      assert schedule + more == (schedule + front) + [y];
      StaysNamedInRun(ps, work, l, rows, schedule, front, v);
      RunSteps(p, l, rows, schedule + front, y);
      StaysNamed(ps, work, l, LockRun(p, l, rows, schedule + front), v, y);
    }
  }

  // ------------------------------------------------------------------ the run

  /** What the steps of two pieces with one name need to know of the program. */
  ghost predicate IsPiece(p: Program, u: nat, k: Key) {
    && |p.start| == |p.token| + 1 && u < |p.token| && 3 * u + 3 <= |p.acts|
    && p.start[u + 1] == 3 * u + 3 && p.acts[3 * u] == Act(Acquire, k, u)
    && p.acts[3 * u + 1] == Act(Work, k, u) && p.acts[3 * u + 2] == Act(Release, k, u)
  }

  function FourSteps(p: Program, l: Lists, s: LockState, a: nat, b: nat, c: nat, d: nat): (s': LockState)
    requires |p.start| == |p.token| + 1 && |s.threads| == |p.token|
    requires a < |p.token| && b < |p.token| && c < |p.token| && d < |p.token|
    ensures |s'.threads| == |p.token|
  {
    LockStep(p, l, LockStep(p, l, LockStep(p, l, LockStep(p, l, s, a), b), c), d)
  }

  /** Both are let in and do their work. */
  lemma {:induction false} BothWork(p: Program, l: Lists, s: LockState, u: nat, v: nat, k: Key) returns (s': LockState)
    requires IsPiece(p, u, k) && IsPiece(p, v, k) && u != v && p.token[u] == p.token[v] && |s.threads| == |p.token|
    requires s.threads[u] == ThreadState(3 * u, Steady) && s.threads[v] == ThreadState(3 * v, Steady)
    requires HolderOf(l, s, k) == p.token[u]
    ensures s' == FourSteps(p, l, s, u, v, u, v)
    ensures s'.threads == s.threads[u := ThreadState(3 * u + 2, Steady)][v := ThreadState(3 * v + 2, Steady)]
    ensures s'.lock == s.lock && s'.offset == s.offset
  {
    hide LockStep, HolderOf;
    var s1 := LetIn(p, l, s, u, k);
    SameHolder(l, s, s1, k);
    var s2 := LetIn(p, l, s1, v, k);
    var s3 := WorksOn(p, l, s2, u, k);
    s' := WorksOn(p, l, s3, v, k);
    assert s'.threads == s.threads[u := ThreadState(3 * u + 2, Steady)][v := ThreadState(3 * v + 2, Steady)];
  }

  lemma SameHolder(l: Lists, s: LockState, s': LockState, k: Key)
    requires s'.lock == s.lock
    ensures HolderOf(l, s', k) == HolderOf(l, s, k)
  {}

  lemma LetIn(p: Program, l: Lists, s: LockState, u: nat, k: Key) returns (s': LockState)
    requires IsPiece(p, u, k) && |s.threads| == |p.token| && s.threads[u] == ThreadState(3 * u, Steady)
    requires HolderOf(l, s, k) == p.token[u]
    ensures |p.start| == |p.token| + 1 && s' == LockStep(p, l, s, u)
    ensures s'.threads == s.threads[u := ThreadState(3 * u + 1, Steady)] && s'.lock == s.lock && s'.offset == s.offset
  {
    s' := LockStep(p, l, s, u);
  }

  lemma WorksOn(p: Program, l: Lists, s: LockState, u: nat, k: Key) returns (s': LockState)
    requires IsPiece(p, u, k) && |s.threads| == |p.token| && s.threads[u] == ThreadState(3 * u + 1, Steady)
    ensures |p.start| == |p.token| + 1 && s' == LockStep(p, l, s, u)
    ensures s'.threads == s.threads[u := ThreadState(3 * u + 2, Steady)] && s'.lock == s.lock && s'.offset == s.offset
  {
    s' := LockStep(p, l, s, u);
  }

  /** Both advance the offset, and the later one stores its name first. */
  lemma {:induction false} BothLeave(p: Program, l: Lists, s: LockState, u: nat, v: nat, k: Key) returns (s': LockState)
    requires IsPiece(p, u, k) && IsPiece(p, v, k) && u != v && |s.threads| == |p.token|
    requires s.threads[u] == ThreadState(3 * u + 2, Steady) && s.threads[v] == ThreadState(3 * v + 2, Steady)
    ensures s' == FourSteps(p, l, s, u, v, v, u)
    ensures s'.threads == s.threads[u := ThreadState(3 * u + 3, Steady)][v := ThreadState(3 * v + 3, Steady)]
    ensures HolderOf(l, s', k) == l.access(k.table, OffsetOf(l, s, k) + 1)
  {
    var n := OffsetOf(l, s, k);
    var s1 := LockStep(p, l, s, u);
    assert s1.threads[u] == ThreadState(3 * u + 2, Handing(n + 1)) && OffsetOf(l, s1, k) == n + 1;
    var s2 := LockStep(p, l, s1, v);
    assert s2.threads[v] == ThreadState(3 * v + 2, Handing(n + 2));
    var s3 := LockStep(p, l, s2, v);
    assert s3.threads[v] == ThreadState(3 * v + 3, Steady) && s3.threads[u] == s1.threads[u];
    s' := LockStep(p, l, s3, u);
  }

  lemma {:induction false} RunFour(p: Program, l: Lists, rows: map<Key, Row>, before: seq<nat>, a: nat, b: nat, c: nat,
                                   d: nat) returns (schedule: seq<nat>)
    requires |p.start| == |p.token| + 1 && IsSchedule(p, before)
    requires a < |p.token| && b < |p.token| && c < |p.token| && d < |p.token|
    ensures IsSchedule(p, schedule)
    ensures LockRun(p, l, rows, schedule) == FourSteps(p, l, LockRun(p, l, rows, before), a, b, c, d)
  {
    hide LockStep, LockRun, IsSchedule;
    RunSteps(p, l, rows, before, a);
    RunSteps(p, l, rows, before + [a], b);
    RunSteps(p, l, rows, before + [a] + [b], c);
    RunSteps(p, l, rows, before + [a] + [b] + [c], d);
    schedule := before + [a] + [b] + [c] + [d];
  }

  /** The list names the units' common name once more after the first of them. */
  lemma {:induction false} ListedNext(p: Program, l: Lists, u: nat, v: nat, k: Key)
    requires WellFormedProgram(p) && Bracketed(p) && ListsOk(p, l) && IsPiece(p, u, k) && IsPiece(p, v, k) && u < v
    requires NoActs(p.acts, k, 3 * u + 3, 3 * v)
    ensures l.access(k.table, l.base(k) + Releases(p, k, 3 * u) + 1) == p.token[v]
  {
    hide WellFormedProgram, Bracketed, ListsOk, NoActs, Count;
    CountQuiet(p.acts, Acquire, k, 3 * u + 3, 3 * v);
    TakenOnce(p, u, k);
    ListedHere(p, l, u, v);
  }

  lemma ListedHere(p: Program, l: Lists, u: nat, v: nat)
    requires WellFormedProgram(p) && Bracketed(p) && ListsOk(p, l) && 3 * u < |p.acts| && 3 * v < |p.acts|
    requires p.acts[3 * u].kind == Acquire && p.acts[3 * v].kind == Acquire
    ensures p.acts[3 * v].unit < |p.token|
    ensures Acquires(p, p.acts[3 * u].key, 3 * u) == Releases(p, p.acts[3 * u].key, 3 * u)
    ensures l.access(p.acts[3 * v].key.table,
                     l.base(p.acts[3 * v].key) + Acquires(p, p.acts[3 * v].key, 3 * v)) == p.token[p.acts[3 * v].unit]
  {
    hide Count;
    assert BracketedAt(p, 3 * u) && ListedAt(p, l, 3 * v);
  }

  lemma {:induction false} TakenOnce(p: Program, u: nat, k: Key)
    requires IsPiece(p, u, k)
    ensures Acquires(p, k, 3 * u + 3) == Acquires(p, k, 3 * u) + 1
  {
    assert Acquires(p, k, 3 * u + 1) == Acquires(p, k, 3 * u) + 1;
    assert Acquires(p, k, 3 * u + 2) == Acquires(p, k, 3 * u + 1);
    assert Acquires(p, k, 3 * u + 3) == Acquires(p, k, 3 * u + 2);
  }

  /** Everybody before u is finished, and so are u and v; the lock has their name. */
  ghost predicate Overtaken(p: Program, l: Lists, s: LockState, u: nat, v: nat, k: Key) {
    && |p.start| == |p.token| + 1 && u < |p.token| && v < |p.token| && |s.threads| == |p.token|
    && HolderOf(l, s, k) == p.token[v]
    && forall w: nat | w < |p.token| ::
         s.threads[w] == ThreadState(if w == u || w == v then 3 * w + 3 else PcAt(p, w, 3 * u), Steady)
  }

  lemma {:induction false} EightSteps(p: Program, l: Lists, s: LockState, u: nat, v: nat, k: Key)
    requires WellFormedProgram(p) && IsPiece(p, u, k) && IsPiece(p, v, k) && u != v && p.token[u] == p.token[v]
    requires SerialAt(p, l, s, 3 * u) && PcAt(p, u, 3 * u) == 3 * u && PcAt(p, v, 3 * u) == 3 * v
    requires HolderOf(l, s, k) == p.token[u] && l.access(k.table, OffsetOf(l, s, k) + 1) == p.token[v]
    ensures Overtaken(p, l, FourSteps(p, l, FourSteps(p, l, s, u, v, u, v), u, v, v, u), u, v, k)
  {
    hide WellFormedProgram, PcAt, LockAt, FourSteps, LockStep;
    var s1 := BothWork(p, l, s, u, v, k);
    var s2 := BothLeave(p, l, s1, u, v, k);
    hide IsPiece, HolderOf;
  }

  lemma PieceFits(p: Program, u: nat, k: Key)
    requires IsPiece(p, u, k)
    ensures |p.start| == |p.token| + 1 && u < |p.token| && 3 * u + 3 <= |p.acts|
  {}

  /** After a serial start and those eight steps the lock has the name of two finished units. */
  lemma {:induction false} Overtake(p: Program, l: Lists, rows: map<Key, Row>, u: nat, v: nat, k: Key)
    returns (schedule: seq<nat>)
    requires WellFormedProgram(p) && Bracketed(p) && ListsOk(p, l) && IsPiece(p, u, k) && IsPiece(p, v, k) && u < v
    requires NoActs(p.acts, k, 3 * u + 3, 3 * v) && p.token[u] == p.token[v]
    requires PcAt(p, u, 3 * u) == 3 * u && PcAt(p, v, 3 * u) == 3 * v
    ensures IsSchedule(p, schedule) && Overtaken(p, l, LockRun(p, l, rows, schedule), u, v, k)
  {
    hide LockStep, LockRun, FourSteps, SerialAt, Overtaken, IsPiece;
    hide Bracketed, ListsOk, WellFormedProgram, NoActs, PcAt, HolderOf, OffsetOf;
    PieceFits(p, u, k);
    PieceFits(p, v, k);
    var before := SerialSchedule(p, l, rows, 3 * u);
    LockBefore(p, l, LockRun(p, l, rows, before), u, v, k);
    EightSteps(p, l, LockRun(p, l, rows, before), u, v, k);
    schedule := RunEight(p, l, rows, before, u, v);
  }

  lemma {:induction false} RunEight(p: Program, l: Lists, rows: map<Key, Row>, before: seq<nat>, u: nat, v: nat)
    returns (schedule: seq<nat>)
    requires |p.start| == |p.token| + 1 && IsSchedule(p, before) && u < |p.token| && v < |p.token|
    ensures IsSchedule(p, schedule)
    ensures LockRun(p, l, rows, schedule) ==
            FourSteps(p, l, FourSteps(p, l, LockRun(p, l, rows, before), u, v, u, v), u, v, v, u)
  {
    hide FourSteps, LockRun, IsSchedule;
    var halfway := RunFour(p, l, rows, before, u, v, u, v);
    schedule := RunFour(p, l, rows, halfway, u, v, v, u);
  }

  lemma {:induction false} LockBefore(p: Program, l: Lists, s: LockState, u: nat, v: nat, k: Key)
    requires WellFormedProgram(p) && Bracketed(p) && ListsOk(p, l) && IsPiece(p, u, k) && IsPiece(p, v, k) && u < v
    requires NoActs(p.acts, k, 3 * u + 3, 3 * v) && p.token[u] == p.token[v] && SerialAt(p, l, s, 3 * u)
    ensures HolderOf(l, s, k) == p.token[u] && l.access(k.table, OffsetOf(l, s, k) + 1) == p.token[v]
  {
    hide Bracketed, ListsOk, WellFormedProgram, NoActs, SerialAt;
    ListNamesUnit(p, l, 3 * u);
    ListedNext(p, l, u, v, k);
    SerialLock(p, l, s, k, 3 * u);
  }

  // ------------------------------------------------------------------ in YCSB's terms

  lemma {:induction false} PieceIs(ps: seq<Param>, work: (nat, Local, Row) -> (Row, Local), u: nat)
    requires ParamsOk(ps) && u < PIECES * |ps|
    ensures IsPiece(YcsbProgram(ps, work), u, KeyOfPiece(ps, u))
  {
    PieceAct(ps, work, u);
    hide YcsbProgram, ParamsOk;
  }

  lemma {:induction false} PieceOfAct(ps: seq<Param>, work: (nat, Local, Row) -> (Row, Local), i: nat)
    requires ParamsOk(ps) && i < |YcsbProgram(ps, work).acts|
    ensures i / 3 < PIECES * |ps| && YcsbProgram(ps, work).acts[i].key == KeyOfPiece(ps, i / 3)
  {
    hide YcsbProgram, ParamsOk;
    ActOfPiece(ps, work, i);
  }

  lemma {:induction false} NoneBetween(ps: seq<Param>, work: (nat, Local, Row) -> (Row, Local), u: nat, v: nat)
    requires ParamsOk(ps) && LastTwo(ps, u, v)
    ensures NoActs(YcsbProgram(ps, work).acts, KeyOfPiece(ps, v), 3 * u + 3, 3 * v)
  {
    hide YcsbProgram, ParamsOk;
    var acts := YcsbProgram(ps, work).acts;
    forall i: nat | 3 * u + 3 <= i < 3 * v && i < |acts| ensures acts[i].key != KeyOfPiece(ps, v) {
      PieceOfAct(ps, work, i);
    }
  }

  lemma {:induction false} PcOfPiece(ps: seq<Param>, work: (nat, Local, Row) -> (Row, Local), u: nat, w: nat)
    requires ParamsOk(ps) && u < PIECES * |ps| && w < PIECES * |ps|
    ensures |YcsbProgram(ps, work).start| == |YcsbProgram(ps, work).token| + 1
    ensures |YcsbProgram(ps, work).token| == PIECES * |ps|
    ensures PcAt(YcsbProgram(ps, work), w, 3 * u) == if w < u then 3 * w + 3 else 3 * w
  {
    hide YcsbProgram, ParamsOk;
    PieceAct(ps, work, w);
  }

  lemma {:induction false} OvertakenIsNamed(ps: seq<Param>, work: (nat, Local, Row) -> (Row, Local), l: Lists,
                                            s: LockState, u: nat, v: nat)
    requires ParamsOk(ps) && LastTwo(ps, u, v)
    requires Overtaken(YcsbProgram(ps, work), l, s, u, v, KeyOfPiece(ps, v))
    ensures NamedForGood(ps, l, s, v) && PcsRight(ps, s)
  {
    hide YcsbProgram, ParamsOk, PcAt;
    PieceAct(ps, work, v);
    forall w: nat | w < PIECES * |ps|
      ensures s.threads[w] == ThreadState(if w <= u || w == v then 3 * w + 3 else 3 * w, Steady)
    {
      PcOfPiece(ps, work, u, w);
    }
  }

  /** The lock becomes stuck with the transaction's name. */
  lemma {:induction false} BecomesNamed(ps: seq<Param>, work: (nat, Local, Row) -> (Row, Local), l: Lists,
                                        rows: map<Key, Row>, u: nat, v: nat) returns (schedule: seq<nat>)
    requires ParamsOk(ps) && ListsOf(l, 0, SubmittedNames(ps)) && LastTwo(ps, u, v)
    ensures |YcsbProgram(ps, work).start| == |YcsbProgram(ps, work).token| + 1
    ensures |YcsbProgram(ps, work).token| == PIECES * |ps| && IsSchedule(YcsbProgram(ps, work), schedule)
    ensures NamedForGood(ps, l, LockRun(YcsbProgram(ps, work), l, rows, schedule), v)
    ensures PcsRight(ps, LockRun(YcsbProgram(ps, work), l, rows, schedule))
  {
    var p, k := YcsbProgram(ps, work), KeyOfPiece(ps, v);
    YcsbLocksReady(ps, 0, work, l);
    assert WellFormedProgram(p) && Bracketed(p) && ListsOk(p, l);
    PieceIs(ps, work, u);
    PieceIs(ps, work, v);
    PcOfPiece(ps, work, u, u);
    PcOfPiece(ps, work, u, v);
    NoneBetween(ps, work, u, v);
    assert p.token[u] == p.token[v];
    hide YcsbProgram, ParamsOk, Bracketed, ListsOk, LocksReady, ListsOf, LockRun, IsPiece, IsSchedule, NoActs, PcAt;
    hide WellFormedProgram, Overtaken, NamedForGood, PcsRight;
    schedule := Overtake(p, l, rows, u, v, k);
    OvertakenIsNamed(ps, work, l, LockRun(p, l, rows, schedule), u, v);
  }

  // ------------------------------------------------------------------ the theorem

  /** After the schedule piece x never gets its row's lock, however the run goes on. */
  ghost predicate LocksOut(p: Program, l: Lists, rows: map<Key, Row>, schedule: seq<nat>, x: nat)
    requires |p.start| == |p.token| + 1 && x < |p.token|
  {
    && IsSchedule(p, schedule)
    && forall more: seq<nat> | IsSchedule(p, more) ::
         IsSchedule(p, schedule + more) && LockRun(p, l, rows, schedule + more).threads[x].pc == p.start[x]
  }

  lemma {:induction false} LastOnRow(ps: seq<Param>, row: nat, w: nat, n: nat) returns (v: nat)
    requires ParamsOk(ps) && w < n <= PIECES * |ps| && RowOfPiece(ps, w) == row
    ensures w <= v < n && RowOfPiece(ps, v) == row
    ensures forall y: nat | v < y < n :: RowOfPiece(ps, y) != row
    decreases n
  {
    hide ParamsOk;
    if RowOfPiece(ps, n - 1) == row {
      v := n - 1;
    } else {
      v := LastOnRow(ps, row, w, n - 1);
    }
  }

  lemma {:induction false} FindLastTwo(ps: seq<Param>, a: nat, b: nat) returns (u: nat, v: nat)
    requires ParamsOk(ps) && a < b < PIECES * |ps| && Clash(ps, a, b)
    ensures LastTwo(ps, u, v) && RowOfPiece(ps, v) == RowOfPiece(ps, b) && v / PIECES == b / PIECES
  {
    hide ParamsOk, RowOfPiece;
    var row, t := RowOfPiece(ps, b), b / PIECES;
    v := LastOnRow(ps, row, b, PIECES * t + PIECES);
    u := LastOnRow(ps, row, a, v);
    assert v / PIECES == t && u / PIECES == t;
  }

  lemma {:induction false} StillOut(ps: seq<Param>, work: (nat, Local, Row) -> (Row, Local), l: Lists,
                                    rows: map<Key, Row>, schedule: seq<nat>, more: seq<nat>, v: nat, x: nat)
    requires ParamsOk(ps) && v < x < PIECES * |ps| && RowOfPiece(ps, x) == RowOfPiece(ps, v)
    requires |YcsbProgram(ps, work).start| == |YcsbProgram(ps, work).token| + 1
    requires |YcsbProgram(ps, work).token| == PIECES * |ps|
    requires IsSchedule(YcsbProgram(ps, work), schedule) && IsSchedule(YcsbProgram(ps, work), more)
    requires NamedForGood(ps, l, LockRun(YcsbProgram(ps, work), l, rows, schedule), v)
    requires PcsRight(ps, LockRun(YcsbProgram(ps, work), l, rows, schedule))
    ensures var p := YcsbProgram(ps, work);
            && IsSchedule(p, schedule + more)
            && LockRun(p, l, rows, schedule + more).threads[x].pc == p.start[x]
  {
    hide YcsbProgram, ParamsOk, LockRun, IsSchedule, RowOfPiece;
    PieceAct(ps, work, x);
    StaysNamedInRun(ps, work, l, rows, schedule, more, v);
  }

  lemma {:induction false} NamedLocksOut(ps: seq<Param>, work: (nat, Local, Row) -> (Row, Local), l: Lists,
                                         rows: map<Key, Row>, schedule: seq<nat>, v: nat, x: nat)
    requires ParamsOk(ps) && v < x < PIECES * |ps| && RowOfPiece(ps, x) == RowOfPiece(ps, v)
    requires |YcsbProgram(ps, work).start| == |YcsbProgram(ps, work).token| + 1
    requires |YcsbProgram(ps, work).token| == PIECES * |ps| && IsSchedule(YcsbProgram(ps, work), schedule)
    requires NamedForGood(ps, l, LockRun(YcsbProgram(ps, work), l, rows, schedule), v)
    requires PcsRight(ps, LockRun(YcsbProgram(ps, work), l, rows, schedule))
    ensures LocksOut(YcsbProgram(ps, work), l, rows, schedule, x)
  {
    hide YcsbProgram, ParamsOk, PcsRight, RowOfPiece, LockRun, NamedForGood;
    var p := YcsbProgram(ps, work);
    forall more: seq<nat> | IsSchedule(p, more)
      ensures IsSchedule(p, schedule + more) && LockRun(p, l, rows, schedule + more).threads[x].pc == p.start[x]
    {
      StillOut(ps, work, l, rows, schedule, more, v, x);
    }
  }

  /** A transaction with two pieces on a row can lock out every later transaction that uses the
      row. */
  lemma {:induction false} ClashLocksOut(ps: seq<Param>, work: (nat, Local, Row) -> (Row, Local), l: Lists,
                                         rows: map<Key, Row>, a: nat, b: nat, x: nat) returns (schedule: seq<nat>)
    requires ParamsOk(ps) && ListsOf(l, 0, SubmittedNames(ps)) && a < b < x < PIECES * |ps| && Clash(ps, a, b)
    requires RowOfPiece(ps, x) == RowOfPiece(ps, b) && x / PIECES != b / PIECES
    ensures |YcsbProgram(ps, work).start| == |YcsbProgram(ps, work).token| + 1
    ensures x < |YcsbProgram(ps, work).token| && LocksOut(YcsbProgram(ps, work), l, rows, schedule, x)
  {
    hide YcsbProgram, ParamsOk, ListsOf, PcsRight, RowOfPiece, LockRun, NamedForGood, IsSchedule, LastTwo, LocksOut;
    var u, v := FindLastTwo(ps, a, b);
    schedule := BecomesNamed(ps, work, l, rows, u, v);
    NamedLocksOut(ps, work, l, rows, schedule, v, x);
  }
}
