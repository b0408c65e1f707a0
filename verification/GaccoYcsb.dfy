/** GAccO on YCSB: every operation of a transaction is a piece of its own, but all ten go by their
    transaction's id. */
module GaccoYcsb {
  import opened Execution
  import opened Locks
  import opened LockSafety
  import opened LockPrograms
  import opened LockNames
  import opened LockDevice
  import opened YcsbSubmitter
  import Plan = GaccoPlanner
  import Gen = YcsbGenerator

  function RowOfPiece(ps: seq<Param>, u: nat): nat
    requires ParamsOk(ps) && u < PIECES * |ps|
  {
    ps[u / PIECES].records[u % PIECES]
  }

  /** A piece takes its row's lock, works, and gives the lock back. */
  function PieceActs(ps: seq<Param>, u: nat): seq<Act>
    requires ParamsOk(ps) && u < PIECES * |ps|
  {
    var k := Key(0, RowOfPiece(ps, u));
    [Act(Acquire, k, u), Act(Work, k, u), Act(Release, k, u)]
  }

  function Pieces(ps: seq<Param>): (units: seq<seq<Act>>)
    requires ParamsOk(ps)
    ensures |units| == PIECES * |ps| && forall u: nat | u < |units| :: units[u] == PieceActs(ps, u)
  {
    seq(PIECES * |ps|, u requires 0 <= u < PIECES * |ps| => PieceActs(ps, u))
  }

  function TxnOfPiece(ps: seq<Param>): (token: seq<nat>)
    ensures |token| == PIECES * |ps| && forall u: nat | u < |token| :: token[u] == u / PIECES
  {
    seq(PIECES * |ps|, u requires 0 <= u < PIECES * |ps| => u / PIECES)
  }

  function YcsbProgram(ps: seq<Param>, work: (nat, Local, Row) -> (Row, Local)): Program
    requires ParamsOk(ps)
  {
    ProgramOf(Pieces(ps), TxnOfPiece(ps), work)
  }

  /** Piece i of transaction t takes the lock of record i, works on it and gives it back, and goes by t. */
  lemma PieceLocks(ps: seq<Param>, t: nat, i: nat, work: (nat, Local, Row) -> (Row, Local))
    requires ParamsOk(ps) && t < |ps| && i < PIECES
    ensures var u, k := PIECES * t + i, Key(0, ps[t].records[i]);
            && PieceActs(ps, u) == [Act(Acquire, k, u), Act(Work, k, u), Act(Release, k, u)]
            && |YcsbProgram(ps, work).token| == PIECES * |ps| && YcsbProgram(ps, work).token[u] == t
  {
    hide Flatten;
    assert (PIECES * t + i) / PIECES == t && (PIECES * t + i) % PIECES == i;
  }

  /** The submitted names: operation i of transaction t at place 10 t + i. */
  function SubmittedNames(ps: seq<Param>): (ops: seq<Plan.LockOp>)
    requires ParamsOk(ps)
    ensures |ops| == PIECES * |ps| && forall u: nat | u < |ops| :: ops[u] == Plan.LockOp(RowOfPiece(ps, u), u / PIECES)
  {
    seq(PIECES * |ps|, u requires 0 <= u < PIECES * |ps| => Plan.LockOp(RowOfPiece(ps, u), u / PIECES))
  }

  // ------------------------------------------------------------------ the program

  lemma {:induction false} PieceIsDisciplined(ps: seq<Param>, u: nat)
    requires ParamsOk(ps) && u < PIECES * |ps|
    ensures Disciplined(PieceActs(ps, u)) && OwnActs(PieceActs(ps, u), u)
  {
    var s, k := PieceActs(ps, u), Key(0, RowOfPiece(ps, u));
    assert HeldAfter(s, 1) == {k};
    assert HeldAfter(s, 2) == {k};
    assert HeldAfter(s, 3) == {};
  }

  lemma {:induction false} PiecesOk(ps: seq<Param>)
    requires ParamsOk(ps)
    ensures UnitsOk(Pieces(ps))
  {
    forall u: nat | u < PIECES * |ps| ensures Disciplined(Pieces(ps)[u]) && OwnActs(Pieces(ps)[u], u) {
      PieceIsDisciplined(ps, u);
    }
  }

  lemma ThreeActs(ps: seq<Param>, u: nat)
    requires ParamsOk(ps) && u < PIECES * |ps|
    ensures |PieceActs(ps, u)| == 3
  {}

  lemma PlaceInPiece(u: nat, g: nat)
    ensures 3 * u <= g < 3 * u + 3 ==> g / 3 == u && g % 3 == g - 3 * u
  {}

  lemma {:induction false} FlattenedPiece(ps: seq<Param>, n: nat, g: nat)
    requires ParamsOk(ps) && n <= PIECES * |ps|
    ensures |Flatten(Pieces(ps), n)| == 3 * n
    ensures g < 3 * n ==> Flatten(Pieces(ps), n)[g] == PieceActs(ps, g / 3)[g % 3]
    decreases n
  {
    hide PieceActs, ParamsOk;
    if n > 0 {
      ThreeActs(ps, n - 1);
      FlattenedPiece(ps, n - 1, g);
      PlaceInPiece(n - 1, g);
    }
  }

  /** Each piece takes one lock, under its transaction's name. */
  lemma {:induction false} NamesOfPiece(ps: seq<Param>, u: nat, t: nat)
    requires ParamsOk(ps) && u < PIECES * |ps|
    ensures NamesMatch(PieceActs(ps, u), TxnOfPiece(ps), t, if t == 0 then [Plan.LockOp(RowOfPiece(ps, u), u / PIECES)]
            else [])
  {
    var s, token := PieceActs(ps, u), TxnOfPiece(ps);
    assert Names(s, token, t, 1) == if t == 0 then [Plan.LockOp(RowOfPiece(ps, u), u / PIECES)] else [];
    assert Names(s, token, t, 2) == Names(s, token, t, 1);
  }

  ghost predicate NamesUpto(ps: seq<Param>, t: nat, n: nat)
    requires ParamsOk(ps) && n <= PIECES * |ps|
  {
    NamesMatch(Flatten(Pieces(ps), n), TxnOfPiece(ps), t, if t == 0 then SubmittedNames(ps)[..n] else [])
  }

  lemma ActsOfOneMore(ps: seq<Param>, n: nat)
    requires ParamsOk(ps) && n < PIECES * |ps|
    ensures Flatten(Pieces(ps), n + 1) == Flatten(Pieces(ps), n) + PieceActs(ps, n)
  {
    hide PieceActs, ParamsOk;
  }

  lemma {:induction false} OneMorePiece(ps: seq<Param>, t: nat, n: nat)
    requires ParamsOk(ps) && n < PIECES * |ps| && NamesUpto(ps, t, n)
    ensures NamesUpto(ps, t, n + 1)
  {
    hide NamesMatch, Flatten, ParamsOk, PieceActs, RowOfPiece, Pieces, TxnOfPiece;
    var was, now := if t == 0 then SubmittedNames(ps)[..n] else [], if t == 0 then SubmittedNames(ps)[..n + 1] else [];
    var own := if t == 0 then [Plan.LockOp(RowOfPiece(ps, n), n / PIECES)] else [];
    NamesOfPiece(ps, n, t);
    assert was + own == now;
    ActsOfOneMore(ps, n);
    NamesMatchConcat(Flatten(Pieces(ps), n), PieceActs(ps, n), TxnOfPiece(ps), t, was, own);
  }

  lemma {:induction false} PiecesAreNamed(ps: seq<Param>, t: nat, n: nat)
    requires ParamsOk(ps) && n <= PIECES * |ps|
    ensures NamesUpto(ps, t, n)
    decreases n
  {
    hide NamesUpto;
    if n > 0 {
      PiecesAreNamed(ps, t, n - 1);
      OneMorePiece(ps, t, n - 1);
    } else {
      NoPieceIsNamed(ps, t);
    }
  }

  lemma NoPieceIsNamed(ps: seq<Param>, t: nat)
    requires ParamsOk(ps)
    ensures NamesUpto(ps, t, 0)
  {
    hide ParamsOk;
    assert Flatten(Pieces(ps), 0) == [];
  }

  // ------------------------------------------------------------------ distinct rows

  /** No two operations of a transaction are on the same row. */
  ghost predicate RowsDistinct(ps: seq<Param>)
    requires ParamsOk(ps)
  {
    forall t, i, j | 0 <= t < |ps| && 0 <= i < j < PIECES :: ps[t].records[i] != ps[t].records[j]
  }

  ghost predicate Clash(ps: seq<Param>, u: nat, v: nat)
    requires ParamsOk(ps) && u < v < PIECES * |ps|
  {
    RowOfPiece(ps, u) == RowOfPiece(ps, v) && u / PIECES == v / PIECES
  }

  ghost predicate NoClash(ps: seq<Param>, m: nat)
    requires ParamsOk(ps) && m <= PIECES * |ps|
  {
    forall u: nat, v: nat | u < v < m :: !Clash(ps, u, v)
  }

  lemma {:induction false} DistinctIffNoClash(ps: seq<Param>)
    requires ParamsOk(ps)
    ensures RowsDistinct(ps) <==> NoClash(ps, PIECES * |ps|)
  {
    if NoClash(ps, PIECES * |ps|) {
      forall t, i, j | 0 <= t < |ps| && 0 <= i < j < PIECES ensures ps[t].records[i] != ps[t].records[j] {
        PieceNumber(t, i);
        PieceNumber(t, j);
        assert !Clash(ps, PIECES * t + i, PIECES * t + j);
      }
    }
  }

  lemma PieceNumber(t: nat, i: nat)
    requires i < PIECES
    ensures (PIECES * t + i) / PIECES == t && (PIECES * t + i) % PIECES == i
  {}

  lemma {:induction false} ActOfPiece(ps: seq<Param>, work: (nat, Local, Row) -> (Row, Local), g: nat)
    requires ParamsOk(ps) && g < |YcsbProgram(ps, work).acts|
    ensures g / 3 < PIECES * |ps| && YcsbProgram(ps, work).acts[g] == PieceActs(ps, g / 3)[g % 3]
    ensures YcsbProgram(ps, work).token == TxnOfPiece(ps)
  {
    FlattenedPiece(ps, PIECES * |ps|, g);
  }

  lemma {:induction false} NoClashNamesDistinct(ps: seq<Param>, m: nat, work: (nat, Local, Row) -> (Row, Local))
    requires ParamsOk(ps) && m <= PIECES * |ps| && NoClash(ps, m)
    requires WellFormedProgram(YcsbProgram(ps, work))
    ensures NamesDistinct(YcsbProgram(ps, work), m)
  {
    hide YcsbProgram, ParamsOk;
    var p := YcsbProgram(ps, work);
    forall g: nat, h: nat | g < h < |p.acts| && p.acts[g].key == p.acts[h].key && p.acts[g].unit < p.acts[h].unit < m
      ensures p.token[p.acts[g].unit] != p.token[p.acts[h].unit]
    {
      ActOfPiece(ps, work, g);
      ActOfPiece(ps, work, h);
      assert !Clash(ps, p.acts[g].unit, p.acts[h].unit);
    }
  }

  lemma {:induction false} YcsbLocksReady(ps: seq<Param>, m: nat, work: (nat, Local, Row) -> (Row, Local), l: Lists)
    requires ParamsOk(ps) && m <= PIECES * |ps| && NoClash(ps, m) && ListsOf(l, 0, SubmittedNames(ps))
    ensures LocksReady(YcsbProgram(ps, work), l, m)
  {
    var p := YcsbProgram(ps, work);
    PiecesOk(ps);
    ProgramIsBracketed(Pieces(ps), TxnOfPiece(ps), work);
    NoClashNamesDistinct(ps, m, work);
    assert m <= |p.token|;
    hide WellFormedProgram, Bracketed, UnitsOk, NamesDistinct, NoClash;
    PiecesMakeLists(ps, work, l);
    hide YcsbProgram;
  }

  lemma {:induction false} PiecesMakeLists(ps: seq<Param>, work: (nat, Local, Row) -> (Row, Local), l: Lists)
    requires ParamsOk(ps) && ListsOf(l, 0, SubmittedNames(ps)) && WellFormedProgram(YcsbProgram(ps, work))
    ensures ListsOk(YcsbProgram(ps, work), l)
  {
    hide YcsbProgram, ParamsOk, WellFormedProgram, ListsOf, Named;
    var p := YcsbProgram(ps, work);
    forall t: nat ensures Named(p.acts, p.token) && ListsOf(l, t, Names(p.acts, p.token, t, |p.acts|)) {
      PieceNamesListed(ps, work, l, t);
    }
    assert Named(p.acts, p.token) by { PieceNamesListed(ps, work, l, 0); }
    NamesMakeLists(p, l);
  }

  lemma {:induction false} PieceNamesListed(ps: seq<Param>, work: (nat, Local, Row) -> (Row, Local), l: Lists, t: nat)
    requires ParamsOk(ps) && ListsOf(l, 0, SubmittedNames(ps))
    ensures var p := YcsbProgram(ps, work);
            Named(p.acts, p.token) && ListsOf(l, t, Names(p.acts, p.token, t, |p.acts|))
  {
    hide Flatten, ParamsOk, ListsOf;
    PiecesAreNamed(ps, t, PIECES * |ps|);
    assert SubmittedNames(ps)[..PIECES * |ps|] == SubmittedNames(ps);
    NothingListed(l, t);
  }

  lemma NothingListed(l: Lists, t: nat)
    ensures ListsOf(l, t, [])
  {}

  lemma {:induction false} FirstClash(ps: seq<Param>, m: nat) returns (u: nat, v: nat)
    requires ParamsOk(ps) && m <= PIECES * |ps| && !NoClash(ps, m)
    ensures u < v < m && Clash(ps, u, v) && NoClash(ps, v)
    decreases m
  {
    if NoClash(ps, m - 1) {
      var a: nat, b: nat :| a < b < m && Clash(ps, a, b);
      assert b == m - 1;
      u, v := a, b;
    } else {
      u, v := FirstClash(ps, m - 1);
    }
  }

  lemma {:induction false} StartOfPiece(ps: seq<Param>, work: (nat, Local, Row) -> (Row, Local), u: nat)
    requires ParamsOk(ps) && u <= PIECES * |ps|
    ensures var p := YcsbProgram(ps, work);
            |p.start| == PIECES * |ps| + 1 == |p.token| + 1 && p.start[u] == 3 * u && |p.acts| == 3 * (PIECES * |ps|)
  {
    FlattenedPiece(ps, u, 0);
    FlattenedPiece(ps, PIECES * |ps|, 0);
    hide Flatten, ParamsOk;
  }

  lemma {:induction false} PieceBegins(ps: seq<Param>, u: nat, work: (nat, Local, Row) -> (Row, Local))
    requires ParamsOk(ps) && u < PIECES * |ps| && WellFormedProgram(YcsbProgram(ps, work))
    ensures BeginsWith(YcsbProgram(ps, work), u, Key(0, RowOfPiece(ps, u)))
  {
    hide WellFormedProgram, YcsbProgram, ParamsOk;
    StartOfPiece(ps, work, u);
    StartOfPiece(ps, work, u + 1);
    ActOfPiece(ps, work, 3 * u);
  }

  /** In every run at most one piece at a time is inside any row's section. */
  ghost predicate AlwaysExclusive(p: Program, l: Lists, rows: map<Key, Row>)
    requires |p.start| == |p.token| + 1
  {
    forall schedule: seq<nat>, u: nat, v: nat, k: Key | IsSchedule(p, schedule) && u < v < |p.token| ::
      !BothInside(p, l, rows, schedule, u, v, k)
  }

  ghost predicate IsSchedule(p: Program, schedule: seq<nat>) {
    forall i | 0 <= i < |schedule| :: schedule[i] < |p.token|
  }

  /** After the run both units are inside row k's section. */
  ghost predicate BothInside(p: Program, l: Lists, rows: map<Key, Row>, schedule: seq<nat>, u: nat, v: nat, k: Key)
    requires |p.start| == |p.token| + 1 && IsSchedule(p, schedule) && u < |p.token| && v < |p.token|
  {
    Inside(p, LockRun(p, l, rows, schedule), u, k) && Inside(p, LockRun(p, l, rows, schedule), v, k)
  }

  lemma {:induction false} DistinctIsExclusive(ps: seq<Param>, work: (nat, Local, Row) -> (Row, Local), l: Lists,
                                               rows: map<Key, Row>)
    requires ParamsOk(ps) && ListsOf(l, 0, SubmittedNames(ps)) && NoClash(ps, PIECES * |ps|)
    ensures |YcsbProgram(ps, work).start| == |YcsbProgram(ps, work).token| + 1
    ensures AlwaysExclusive(YcsbProgram(ps, work), l, rows)
  {
    hide LocksReady, ParamsOk, ListsOf, YcsbProgram, NoClash, Inside;
    var p := YcsbProgram(ps, work);
    StartOfPiece(ps, work, 0);
    YcsbLocksReady(ps, PIECES * |ps|, work, l);
    forall schedule: seq<nat>, u: nat, v: nat, k: Key | IsSchedule(p, schedule) && u < v < |p.token|
      ensures !BothInside(p, l, rows, schedule, u, v, k)
    {
      MutualExclusion(p, l, rows, schedule, u, v, k);
    }
  }

  lemma {:induction false} ClashBreaksExclusion(ps: seq<Param>, work: (nat, Local, Row) -> (Row, Local), l: Lists,
                                                rows: map<Key, Row>)
    requires ParamsOk(ps) && ListsOf(l, 0, SubmittedNames(ps)) && !NoClash(ps, PIECES * |ps|)
    ensures |YcsbProgram(ps, work).start| == |YcsbProgram(ps, work).token| + 1
    ensures !AlwaysExclusive(YcsbProgram(ps, work), l, rows)
  {
    var p := YcsbProgram(ps, work);
    var u, v := FirstClash(ps, PIECES * |ps|);
    assert NoClash(ps, u);
    StartOfPiece(ps, work, 0);
    YcsbLocksReady(ps, u, work, l);
    assert p.token[u] == p.token[v] && v < |p.token|;
    hide YcsbProgram, ParamsOk, ListsOf, NoClash;
    assert WellFormedProgram(p);
    PieceBegins(ps, u, work);
    PieceBegins(ps, v, work);
    hide LocksReady, BeginsWith, Inside, WellFormedProgram;
    var schedule := SameNameBothInside(p, l, rows, u, v, Key(0, RowOfPiece(ps, u)));
    assert BothInside(p, l, rows, schedule, u, v, Key(0, RowOfPiece(ps, u)));
  }

  /** The piecewise form is safe for exactly the batches in which no transaction has two
      operations on the same row. */
  lemma {:induction false} ExclusiveIffRowsDistinct(ps: seq<Param>, work: (nat, Local, Row) -> (Row, Local), l: Lists,
                                                    rows: map<Key, Row>)
    requires ParamsOk(ps) && ListsOf(l, 0, SubmittedNames(ps))
    ensures |YcsbProgram(ps, work).start| == |YcsbProgram(ps, work).token| + 1
    ensures AlwaysExclusive(YcsbProgram(ps, work), l, rows) <==> RowsDistinct(ps)
  {
    hide NoClash, RowsDistinct, ParamsOk, AlwaysExclusive, ListsOf;
    DistinctIffNoClash(ps);
    if NoClash(ps, PIECES * |ps|) {
      DistinctIsExclusive(ps, work, l, rows);
    } else {
      ClashBreaksExclusion(ps, work, l, rows);
    }
  }

  /** The generator redraws a key that its transaction already has, so generated batches never clash. */
  lemma {:induction false} GeneratedRowsDistinct(ops: seq<Gen.Operation>, start: nat, first: nat, k: nat)
    requires Gen.OpsGenerated(ops, start) && PIECES * (first + k) <= |ops|
    ensures ParamsOk(Gen.ParamsFrom(ops, first, k)) && RowsDistinct(Gen.ParamsFrom(ops, first, k))
  {
    Gen.ParamsFromOk(ops, first, k);
    hide Gen.OpsGenerated, ParamsOk;
    forall t, i, j | 0 <= t < k && 0 <= i < j < PIECES
      ensures Gen.ParamsFrom(ops, first, k)[t].records[i] != Gen.ParamsFrom(ops, first, k)[t].records[j]
    {
      PieceNumber(first + t, i);
      PieceNumber(first + t, j);
      Gen.KeysDiffer(ops, start, PIECES * (first + t) + i, PIECES * (first + t) + j);
      assert Gen.ParamsFrom(ops, first, k)[t] == Gen.ParamAt(ops, first + t);
    }
  }

  /** So every run of every epoch of a generated benchmark is exclusive. */
  lemma {:induction false} GeneratedIsExclusive(ops: seq<Gen.Operation>, start: nat, first: nat, k: nat,
                                                work: (nat, Local, Row) -> (Row, Local), l: Lists, rows: map<Key, Row>)
    requires Gen.OpsGenerated(ops, start) && PIECES * (first + k) <= |ops|
    requires ParamsOk(Gen.ParamsFrom(ops, first, k)) && ListsOf(l, 0, SubmittedNames(Gen.ParamsFrom(ops, first, k)))
    ensures |YcsbProgram(Gen.ParamsFrom(ops, first, k), work).start| ==
            |YcsbProgram(Gen.ParamsFrom(ops, first, k), work).token| + 1
    ensures AlwaysExclusive(YcsbProgram(Gen.ParamsFrom(ops, first, k), work), l, rows)
  {
    hide Gen.OpsGenerated, Gen.ParamsFrom, ParamsOk, RowsDistinct, AlwaysExclusive, ListsOf;
    GeneratedRowsDistinct(ops, start, first, k);
    ExclusiveIffRowsDistinct(Gen.ParamsFrom(ops, first, k), work, l, rows);
  }

  // ------------------------------------------------------------------ a whole epoch

  /** Thread t lists its ten rows from place 10 t on. */
  method Submit(ps: seq<Param>, submitDest: array<Plan.LockOp>) returns (currNumOps: nat)
    requires ParamsOk(ps) && PIECES * |ps| <= submitDest.Length
    modifies submitDest
    ensures currNumOps == PIECES * |ps| && submitDest[..currNumOps] == SubmittedNames(ps)
    ensures forall t: nat, i: nat | t < |ps| && i < PIECES ::
              submitDest[PIECES * t + i] == Plan.LockOp(ps[t].records[i], t)
  {
    for t := 0 to |ps|
      invariant forall u: nat | u < PIECES * t :: submitDest[u] == SubmittedNames(ps)[u]
    {
      var base := t * 10;
      for i := 0 to PIECES
        invariant forall u: nat | u < PIECES * t + i :: submitDest[u] == SubmittedNames(ps)[u]
      {
        PieceNumber(t, i);
        submitDest[base + i] := Plan.LockOp(ps[t].records[i], t);
      }
    }
    currNumOps := PIECES * |ps|;
    forall t: nat, i: nat | t < |ps| && i < PIECES ensures
        submitDest[..currNumOps][PIECES * t + i] == Plan.LockOp(ps[t].records[i], t)
    {
      NameOf(ps, t, i);
    }
  }

  lemma NameOf(ps: seq<Param>, t: nat, i: nat)
    requires ParamsOk(ps) && t < |ps| && i < PIECES
    ensures PIECES * t + i < |SubmittedNames(ps)|
    ensures SubmittedNames(ps)[PIECES * t + i] == Plan.LockOp(ps[t].records[i], t)
  {
    assert (PIECES * t + i) / PIECES == t && (PIECES * t + i) % PIECES == i;
  }

  /** The planner's arrays as the executor reads them. */
  function ListsFrom(access: seq<nat>, offset: seq<nat>): Lists {
    Lists((t: nat, i: nat) => if t == 0 && i < |access| then access[i] else 0,
          (k: Key) => if k.table == 0 && k.row < |offset| then offset[k.row] else 0)
  }

  lemma {:induction false} BuiltListsAreRead(ops: seq<Plan.LockOp>, access: seq<nat>, offset: seq<nat>, lock: seq<nat>)
    requires Plan.ListsBuilt(ops, access, offset, lock)
    ensures ListsOf(ListsFrom(access, offset), 0, ops)
  {
    hide Plan.ListBase, Plan.ListIndex;
  }

  /** One epoch, from the indexed transactions to the rows: if no transaction uses a row twice,
      every run of the pieces ends with the rows of the serial run. */
  method RunEpoch(ps: seq<Param>, planner: Plan.GpuTableExecutionPlanner, rows: map<Key, Row>,
                  work: (nat, Local, Row) -> (Row, Local)) returns (threads: Threads)
    requires ParamsOk(ps) && RowsDistinct(ps)
    requires planner.Valid() && PIECES * |ps| <= planner.submittedOps.Length
    requires forall u: nat | u < PIECES * |ps| :: RowOfPiece(ps, u) < planner.offset.Length
    modifies planner, planner.submittedOps, planner.sortedOps, planner.uniqueRows, planner.uniqueAccess
    modifies planner.uniqueOffset, planner.access, planner.offset, planner.lock
    ensures forall k: Key ::
              threads.data.RowOf(k) == SerialData(YcsbProgram(ps, work), rows, |YcsbProgram(ps, work).acts|).RowOf(k)
  {
    var n := Submit(ps, planner.submittedOps);
    planner.currNumOps := n;
    ghost var ops := planner.Submitted();
    assert forall j: nat | j < n :: planner.submittedOps[j] == SubmittedNames(ps)[j];
    planner.InitializeExecutionPlan();
    var l := ListsFrom(planner.access[..], planner.offset[..]);
    BuiltListsAreRead(ops, planner.access[..], planner.offset[..], planner.lock[..]);
    DistinctIffNoClash(ps);
    YcsbLocksReady(ps, n, work, l);
    var p := YcsbProgram(ps, work);
    assert |p.token| == n;
    hide LocksReady, YcsbProgram, ParamsOk, ListsOf, RowsDistinct, NoClash;
    threads := new Threads(p, rows);
    threads.Execute(p, l, rows);
  }
}
