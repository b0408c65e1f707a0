/** When a piece can be locked out of its row for good: exactly when an earlier transaction uses the
    row twice. */
module LockOut {
  import opened Execution
  import opened GaccoYcsb
  import opened LockPrograms
  import opened LockStarvation
  import opened Locks
  import opened YcsbSubmitter

  function NumPieces(ps: seq<Param>): nat { PIECES * |ps| }

  /** The program as arithmetic: piece u is acts 3 u to 3 u + 2, under the name of its transaction. */
  ghost predicate IsYcsb(ps: seq<Param>, p: Program) {
    && ParamsOk(ps) && |p.start| == |p.token| + 1 && |p.token| == NumPieces(ps)
    && forall u: nat | u < NumPieces(ps) ::
         IsPiece(p, u, KeyOfPiece(ps, u)) && p.token[u] == u / PIECES && p.start[u] == 3 * u
  }

  predicate OnRow(ps: seq<Param>, k: Key, u: nat)
    requires ParamsOk(ps) && u < NumPieces(ps)
  {
    KeyOfPiece(ps, u) == k
  }

  /** How many of the first w pieces use row k. */
  function Users(ps: seq<Param>, k: Key, w: nat): nat
    requires ParamsOk(ps) && w <= NumPieces(ps)
  {
    if w == 0 then 0 else Users(ps, k, w - 1) + (if OnRow(ps, k, w - 1) then 1 else 0)
  }

  /** The row's list names its users in order. */
  ghost predicate ListsUsers(ps: seq<Param>, l: Lists, k: Key)
    requires ParamsOk(ps)
  {
    forall w: nat | w < NumPieces(ps) && OnRow(ps, k, w) ::
      l.access(k.table, l.base(k) + Users(ps, k, w)) == w / PIECES
  }

  // ------------------------------------------------------------------ one piece

  /** A piece is before, between or after its acts, or halfway through its release. */
  predicate Regular(s: LockState, u: nat)
    requires u < |s.threads|
  {
    var t := s.threads[u];
    && 3 * u <= t.pc <= 3 * u + 3 && (t.phase.Handing? ==> t.pc == 3 * u + 2)
  }

  predicate NotIn(s: LockState, u: nat)
    requires u < |s.threads|
  {
    s.threads[u] == ThreadState(3 * u, Steady)
  }

  predicate Out(s: LockState, u: nat)
    requires u < |s.threads|
  {
    s.threads[u] == ThreadState(3 * u + 3, Steady)
  }

  /** The piece has advanced its row's offset. */
  predicate HasAdvanced(s: LockState, u: nat)
    requires u < |s.threads|
  {
    s.threads[u].phase.Handing? || s.threads[u].pc == 3 * u + 3
  }

  /** What a step of piece y does to the piece and to row k. */
  lemma {:induction false} PieceStep(p: Program, l: Lists, s: LockState, y: nat, ky: Key, k: Key)
    requires IsPiece(p, y, ky) && |s.threads| == |p.token| && Regular(s, y)
    ensures |p.start| == |p.token| + 1
    ensures var s' := LockStep(p, l, s, y);
            var t := s.threads[y];
            && (forall v: nat | v < |s.threads| && v != y :: s'.threads[v] == s.threads[v])
            && s'.threads[y] == (if t.pc == 3 * y then
                                   if HolderOf(l, s, ky) == p.token[y] then ThreadState(3 * y + 1, Steady) else t
                                 else if t.pc == 3 * y + 1 then ThreadState(3 * y + 2, Steady)
                                 else if t.pc == 3 * y + 3 then t
                                 else if t.phase.Steady? then ThreadState(3 * y + 2, Handing(OffsetOf(l, s, ky) + 1))
                                 else ThreadState(3 * y + 3, Steady))
            && HolderOf(l, s', k) == (if k == ky && t.pc == 3 * y + 2 && t.phase.Handing?
                                      then l.access(k.table, t.phase.newOffset) else HolderOf(l, s, k))
            && OffsetOf(l, s', k) == OffsetOf(l, s, k)
                                     + if k == ky && t.pc == 3 * y + 2 && t.phase.Steady? then 1 else 0
  {}

  // ------------------------------------------------------------------ before the row's turn comes

  /** The users of row k before piece c are out, those after it are not in, and the lock names c. */
  ghost predicate Turn(ps: seq<Param>, l: Lists, s: LockState, k: Key, c: nat)
    requires ParamsOk(ps) && |s.threads| == NumPieces(ps)
  {
    && c < NumPieces(ps) && OnRow(ps, k, c)
    && (forall v: nat | v < NumPieces(ps) && OnRow(ps, k, v) && v != c :: if v < c then Out(s, v) else NotIn(s, v))
    && HolderOf(l, s, k) == c / PIECES && s.threads[c].pc < 3 * c + 3
    && OffsetOf(l, s, k) == l.base(k) + Users(ps, k, c) + (if HasAdvanced(s, c) then 1 else 0)
    && (s.threads[c].phase.Handing? ==> s.threads[c].phase.newOffset == l.base(k) + Users(ps, k, c) + 1)
  }

  /** How many of the row's users from lo to hi have advanced. */
  function Advanced(ps: seq<Param>, s: LockState, k: Key, lo: nat, hi: nat): nat
    requires ParamsOk(ps) && |s.threads| == NumPieces(ps) && lo <= hi <= NumPieces(ps)
  {
    if hi == lo then 0
    else Advanced(ps, s, k, lo, hi - 1) + (if OnRow(ps, k, hi - 1) && HasAdvanced(s, hi - 1) then 1 else 0)
  }

  function First(x: nat): nat { x / PIECES * PIECES }

  /** It is the turn of x's transaction: the users of earlier ones are out, those of later ones are
      not in, and whatever a user of the transaction is about to store is the transaction's name. */
  ghost predicate GroupTurn(ps: seq<Param>, l: Lists, s: LockState, k: Key, x: nat)
    requires ParamsOk(ps) && |s.threads| == NumPieces(ps) && First(x) + PIECES <= NumPieces(ps)
  {
    var lo, hi := First(x), First(x) + PIECES;
    && (forall v: nat | v < lo && OnRow(ps, k, v) :: Out(s, v))
    && (forall v: nat | hi <= v < NumPieces(ps) && OnRow(ps, k, v) :: NotIn(s, v))
    && HolderOf(l, s, k) == x / PIECES
    && OffsetOf(l, s, k) == l.base(k) + Users(ps, k, lo) + Advanced(ps, s, k, lo, hi)
    && (forall v: nat | lo <= v < hi && OnRow(ps, k, v) && s.threads[v].phase.Handing? ::
          l.base(k) + Users(ps, k, lo) < s.threads[v].phase.newOffset <= OffsetOf(l, s, k))
  }

  ghost predicate AllRegular(ps: seq<Param>, s: LockState) {
    |s.threads| == NumPieces(ps) && forall u: nat | u < NumPieces(ps) :: Regular(s, u)
  }

  /** No transaction before x's has two pieces on row k. */
  ghost predicate NoneTwice(ps: seq<Param>, k: Key, x: nat)
    requires ParamsOk(ps)
  {
    forall a: nat, b: nat | a < b < First(x) && b < NumPieces(ps) && OnRow(ps, k, a) && OnRow(ps, k, b) ::
      a / PIECES != b / PIECES
  }

  // ------------------------------------------------------------------ the list

  lemma {:induction false} UsersMonotone(ps: seq<Param>, k: Key, a: nat, b: nat)
    requires ParamsOk(ps) && a <= b <= NumPieces(ps)
    ensures Users(ps, k, a) <= Users(ps, k, b)
    decreases b - a
  {
    hide ParamsOk;
    if a < b { UsersMonotone(ps, k, a, b - 1); }
  }

  lemma {:induction false} NoUsers(ps: seq<Param>, k: Key, a: nat, b: nat)
    requires ParamsOk(ps) && a <= b <= NumPieces(ps) && forall v: nat | a <= v < b :: !OnRow(ps, k, v)
    ensures Users(ps, k, a) == Users(ps, k, b)
    decreases b - a
  {
    hide ParamsOk, OnRow;
    if a < b { NoUsers(ps, k, a, b - 1); }
  }

  /** The user with n users before it. */
  lemma {:induction false} UserAt(ps: seq<Param>, k: Key, lo: nat, hi: nat, n: nat) returns (w: nat)
    requires ParamsOk(ps) && lo <= hi <= NumPieces(ps) && Users(ps, k, lo) <= n < Users(ps, k, hi)
    ensures lo <= w < hi && OnRow(ps, k, w) && Users(ps, k, w) == n
    decreases hi - lo
  {
    hide ParamsOk, OnRow;
    if n < Users(ps, k, hi - 1) { w := UserAt(ps, k, lo, hi - 1, n); } else { w := hi - 1; }
  }

  /** The next user of the row after piece c, if one comes before hi. */
  lemma {:induction false} NextUser(ps: seq<Param>, k: Key, c: nat, x: nat) returns (w: nat)
    requires ParamsOk(ps) && c < x < NumPieces(ps) && OnRow(ps, k, c) && OnRow(ps, k, x)
    ensures c < w <= x && OnRow(ps, k, w) && Users(ps, k, w) == Users(ps, k, c) + 1
    ensures forall v: nat | c < v < w :: !OnRow(ps, k, v)
  {
    hide ParamsOk, OnRow;
    UsersMonotone(ps, k, c + 1, x);
    w := c + 1;
    while !OnRow(ps, k, w)
      invariant c < w <= x && Users(ps, k, w) == Users(ps, k, c) + 1
      invariant forall v: nat | c < v < w :: !OnRow(ps, k, v)
      decreases x - w
    {
      w := w + 1;
    }
  }

  /** A name between the transaction's first and last is the transaction's. */
  lemma {:induction false} NameInGroup(ps: seq<Param>, l: Lists, k: Key, x: nat, n: nat)
    requires ParamsOk(ps) && First(x) + PIECES <= NumPieces(ps) && ListsUsers(ps, l, k)
    requires Users(ps, k, First(x)) <= n < Users(ps, k, First(x) + PIECES)
    ensures l.access(k.table, l.base(k) + n) == x / PIECES
  {
    hide ParamsOk, OnRow;
    var w := UserAt(ps, k, First(x), First(x) + PIECES, n);
    assert w / PIECES == x / PIECES;
  }

  // ------------------------------------------------------------------ counting

  lemma {:induction false} SameAdvanced(ps: seq<Param>, s: LockState, s': LockState, k: Key, lo: nat, hi: nat)
    requires ParamsOk(ps) && |s.threads| == |s'.threads| == NumPieces(ps) && lo <= hi <= NumPieces(ps)
    requires forall v: nat | lo <= v < hi && OnRow(ps, k, v) :: HasAdvanced(s', v) == HasAdvanced(s, v)
    ensures Advanced(ps, s', k, lo, hi) == Advanced(ps, s, k, lo, hi)
    decreases hi - lo
  {
    hide ParamsOk, OnRow, HasAdvanced;
    if lo < hi { SameAdvanced(ps, s, s', k, lo, hi - 1); }
  }

  lemma {:induction false} OneMoreAdvanced(ps: seq<Param>, s: LockState, s': LockState, k: Key, lo: nat, hi: nat,
                                           y: nat)
    requires ParamsOk(ps) && |s.threads| == |s'.threads| == NumPieces(ps) && lo <= y < hi <= NumPieces(ps)
    requires OnRow(ps, k, y) && !HasAdvanced(s, y) && HasAdvanced(s', y)
    requires forall v: nat | lo <= v < hi && v != y && OnRow(ps, k, v) :: HasAdvanced(s', v) == HasAdvanced(s, v)
    ensures Advanced(ps, s', k, lo, hi) == Advanced(ps, s, k, lo, hi) + 1
    decreases hi - lo
  {
    hide ParamsOk, OnRow, HasAdvanced;
    if y == hi - 1 { SameAdvanced(ps, s, s', k, lo, hi - 1); } else { OneMoreAdvanced(ps, s, s', k, lo, hi - 1, y); }
  }

  /** As long as x has not advanced, fewer have than use the row. */
  lemma {:induction false} NotAllAdvanced(ps: seq<Param>, s: LockState, k: Key, lo: nat, hi: nat, x: nat)
    requires ParamsOk(ps) && |s.threads| == NumPieces(ps) && lo <= hi <= NumPieces(ps)
    ensures Users(ps, k, lo) + Advanced(ps, s, k, lo, hi) <= Users(ps, k, hi)
    ensures lo <= x < hi && OnRow(ps, k, x) && !HasAdvanced(s, x) ==>
              Users(ps, k, lo) + Advanced(ps, s, k, lo, hi) < Users(ps, k, hi)
    decreases hi - lo
  {
    hide ParamsOk, OnRow, HasAdvanced;
    if lo < hi { NotAllAdvanced(ps, s, k, lo, hi - 1, x); }
  }

  lemma {:induction false} NoneAdvanced(ps: seq<Param>, s: LockState, k: Key, lo: nat, hi: nat)
    requires ParamsOk(ps) && |s.threads| == NumPieces(ps) && lo <= hi <= NumPieces(ps)
    requires forall v: nat | lo <= v < hi && OnRow(ps, k, v) :: !HasAdvanced(s, v)
    ensures Advanced(ps, s, k, lo, hi) == 0
    decreases hi - lo
  {
    hide ParamsOk, OnRow, HasAdvanced;
    if lo < hi { NoneAdvanced(ps, s, k, lo, hi - 1); }
  }

  // ------------------------------------------------------------------ steps

  /** x is a piece on row k that is not in, and no earlier transaction uses the row twice. */
  ghost predicate Setting(ps: seq<Param>, p: Program, l: Lists, s: LockState, k: Key, x: nat) {
    && IsYcsb(ps, p) && ListsUsers(ps, l, k) && x < NumPieces(ps) && OnRow(ps, k, x) && NoneTwice(ps, k, x)
    && AllRegular(ps, s) && NotIn(s, x)
  }

  lemma FirstFits(ps: seq<Param>, x: nat)
    requires x < NumPieces(ps)
    ensures First(x) <= x < First(x) + PIECES <= NumPieces(ps)
  {}

  lemma PieceFits(ps: seq<Param>, p: Program, u: nat)
    requires IsYcsb(ps, p) && u < NumPieces(ps)
    ensures ParamsOk(ps) && |p.start| == |p.token| + 1 && |p.token| == NumPieces(ps)
    ensures IsPiece(p, u, KeyOfPiece(ps, u)) && p.token[u] == u / PIECES && p.start[u] == 3 * u
  {
    hide ParamsOk, IsPiece;
  }

  /** A step leaves all pieces in their acts. */
  lemma {:induction false} StaysRegular(ps: seq<Param>, p: Program, l: Lists, s: LockState, y: nat)
    requires IsYcsb(ps, p) && AllRegular(ps, s) && y < NumPieces(ps)
    ensures |p.start| == |p.token| + 1 && |s.threads| == |p.token|
    ensures AllRegular(ps, LockStep(p, l, s, y))
  {
    hide IsYcsb, ParamsOk, IsPiece, LockStep;
    PieceFits(ps, p, y);
    PieceStep(p, l, s, y, KeyOfPiece(ps, y), KeyOfPiece(ps, y));
    forall u: nat | u < NumPieces(ps) ensures Regular(LockStep(p, l, s, y), u) {
      assert Regular(s, u);
    }
  }

  /** While it is piece c's turn, no step of another piece changes that. */
  lemma {:induction false} TurnStays(ps: seq<Param>, p: Program, l: Lists, s: LockState, k: Key, x: nat, c: nat, y: nat)
    requires Setting(ps, p, l, s, k, x) && Turn(ps, l, s, k, c) && c < First(x) && y < NumPieces(ps) && y != c
    ensures |p.start| == |p.token| + 1 && |s.threads| == |p.token|
    ensures Turn(ps, l, LockStep(p, l, s, y), k, c)
  {
    hide IsYcsb, ParamsOk, IsPiece, LockStep, ListsUsers, Users;
    PieceFits(ps, p, y);
    PieceStep(p, l, s, y, KeyOfPiece(ps, y), k);
    if OnRow(ps, k, y) && y > c {
      if y < First(x) { assert y / PIECES != c / PIECES; } else { assert y / PIECES > c / PIECES; }
    }
  }

  /** How far piece c is. */
  function Stage(s: LockState, c: nat): nat
    requires c < |s.threads|
  {
    if s.threads[c].phase.Handing? then 3 else if s.threads[c].pc == 3 * c + 3 then 4
    else if s.threads[c].pc >= 3 * c then s.threads[c].pc - 3 * c else 0
  }

  /** A step of piece c itself takes it further, up to handing over the lock. */
  lemma {:induction false} TurnAdvances(ps: seq<Param>, p: Program, l: Lists, s: LockState, k: Key, x: nat, c: nat)
    requires Setting(ps, p, l, s, k, x) && Turn(ps, l, s, k, c) && c < First(x) && s.threads[c].phase.Steady?
    ensures |p.start| == |p.token| + 1 && |s.threads| == |p.token|
    ensures var s' := LockStep(p, l, s, c); Turn(ps, l, s', k, c) && Stage(s, c) < Stage(s', c) < 4
  {
    hide IsYcsb, ParamsOk, IsPiece, LockStep, ListsUsers, Users, NoneTwice;
    PieceFits(ps, p, c);
    PieceStep(p, l, s, c, KeyOfPiece(ps, c), k);
  }

  /** What handing over leaves: piece c is out as well, and the lock names the next user. */
  ghost predicate Passed(ps: seq<Param>, l: Lists, s: LockState, k: Key, c: nat, d: nat)
    requires ParamsOk(ps) && |s.threads| == NumPieces(ps)
  {
    && c < d < NumPieces(ps) && OnRow(ps, k, d) && Users(ps, k, d) == Users(ps, k, c) + 1
    && (forall v: nat | c < v < d :: !OnRow(ps, k, v))
    && (forall v: nat | v < NumPieces(ps) && OnRow(ps, k, v) :: if v <= c then Out(s, v) else NotIn(s, v))
    && HolderOf(l, s, k) == d / PIECES && OffsetOf(l, s, k) == l.base(k) + Users(ps, k, d)
  }

  lemma {:induction false} TurnEnds(ps: seq<Param>, p: Program, l: Lists, s: LockState, k: Key, x: nat, c: nat)
    returns (d: nat)
    requires Setting(ps, p, l, s, k, x) && Turn(ps, l, s, k, c) && c < First(x) && s.threads[c].phase.Handing?
    ensures |p.start| == |p.token| + 1 && |s.threads| == |p.token| && d <= x
    ensures Passed(ps, l, LockStep(p, l, s, c), k, c, d)
  {
    hide IsYcsb, ParamsOk, IsPiece, LockStep, Users, NoneTwice, HolderOf, OffsetOf;
    PieceFits(ps, p, c);
    PieceStep(p, l, s, c, KeyOfPiece(ps, c), k);
    d := NextUser(ps, k, c, x);
  }

  lemma {:induction false} GroupBegins(ps: seq<Param>, l: Lists, s: LockState, k: Key, x: nat, c: nat, d: nat)
    requires ParamsOk(ps) && |s.threads| == NumPieces(ps) && First(x) + PIECES <= NumPieces(ps)
    requires Passed(ps, l, s, k, c, d) && c < First(x) <= d <= x
    ensures GroupTurn(ps, l, s, k, x)
  {
    hide ParamsOk, OnRow, HolderOf, OffsetOf;
    NoUsers(ps, k, First(x), d);
    NoneAdvanced(ps, s, k, First(x), First(x) + PIECES);
    hide Users, Advanced;
    assert d / PIECES == x / PIECES;
  }

  lemma {:induction false} TurnBegins(ps: seq<Param>, l: Lists, s: LockState, k: Key, c: nat, d: nat)
    requires ParamsOk(ps) && |s.threads| == NumPieces(ps) && Passed(ps, l, s, k, c, d)
    ensures Turn(ps, l, s, k, d)
  {
    hide ParamsOk, OnRow, HolderOf, OffsetOf, Users;
  }

  /** Then it is the next user's turn, or the group's. */
  lemma {:induction false} TurnPasses(ps: seq<Param>, p: Program, l: Lists, s: LockState, k: Key, x: nat, c: nat)
    returns (d: nat)
    requires Setting(ps, p, l, s, k, x) && Turn(ps, l, s, k, c) && c < First(x) && s.threads[c].phase.Handing?
    ensures |p.start| == |p.token| + 1 && |s.threads| == |p.token| && First(x) + PIECES <= NumPieces(ps)
    ensures var s' := LockStep(p, l, s, c);
            GroupTurn(ps, l, s', k, x) || (c < d < First(x) && Turn(ps, l, s', k, d))
  {
    hide IsYcsb, ParamsOk, LockStep, Passed, Turn, GroupTurn, OnRow, First;
    FirstFits(ps, x);
    PieceFits(ps, p, x);
    d := TurnEnds(ps, p, l, s, k, x, c);
    PassedOn(ps, l, LockStep(p, l, s, c), k, c, d);
    if d >= First(x) {
      GroupBegins(ps, l, LockStep(p, l, s, c), k, x, c, d);
    } else {
      TurnBegins(ps, l, LockStep(p, l, s, c), k, c, d);
    }
  }

  lemma PassedOn(ps: seq<Param>, l: Lists, s: LockState, k: Key, c: nat, d: nat)
    requires ParamsOk(ps) && |s.threads| == NumPieces(ps) && Passed(ps, l, s, k, c, d)
    ensures c < d
  {
    hide ParamsOk, Users, OnRow;
  }

  /** In the group's turn the lock keeps the transaction's name until x is in ... */
  lemma {:induction false} GroupName(ps: seq<Param>, p: Program, l: Lists, s: LockState, k: Key, x: nat, y: nat)
    requires Setting(ps, p, l, s, k, x) && First(x) + PIECES <= NumPieces(ps) && GroupTurn(ps, l, s, k, x)
    requires y < NumPieces(ps)
    ensures |p.start| == |p.token| + 1 && |s.threads| == |p.token|
    ensures HolderOf(l, LockStep(p, l, s, y), k) == x / PIECES
  {
    hide IsYcsb, ParamsOk, IsPiece, LockStep, Users, Advanced, ListsUsers, NoneTwice, HolderOf, OffsetOf;
    PieceFits(ps, p, y);
    PieceStep(p, l, s, y, KeyOfPiece(ps, y), k);
    NotAllAdvanced(ps, s, k, First(x), First(x) + PIECES, x);
    if OnRow(ps, k, y) && s.threads[y].pc == 3 * y + 2 && s.threads[y].phase.Handing? {
      NameInGroup(ps, l, k, x, s.threads[y].phase.newOffset - l.base(k));
    }
  }

  /** ... and the offset counts those of its users that have advanced. */
  lemma {:induction false} GroupOffset(ps: seq<Param>, p: Program, l: Lists, s: LockState, k: Key, x: nat, y: nat)
    requires Setting(ps, p, l, s, k, x) && First(x) + PIECES <= NumPieces(ps) && GroupTurn(ps, l, s, k, x)
    requires y < NumPieces(ps)
    ensures |p.start| == |p.token| + 1 && |s.threads| == |p.token|
    ensures OffsetOf(l, LockStep(p, l, s, y), k) ==
            l.base(k) + Users(ps, k, First(x))
            + Advanced(ps, LockStep(p, l, s, y), k, First(x), First(x) + PIECES)
  {
    hide IsYcsb, ParamsOk, IsPiece, LockStep, Users, Advanced, ListsUsers, NoneTwice, HolderOf, OffsetOf;
    PieceFits(ps, p, y);
    PieceStep(p, l, s, y, KeyOfPiece(ps, y), k);
    var s', lo, hi := LockStep(p, l, s, y), First(x), First(x) + PIECES;
    if OnRow(ps, k, y) && lo <= y < hi && s.threads[y].pc == 3 * y + 2 && s.threads[y].phase.Steady? {
      OneMoreAdvanced(ps, s, s', k, lo, hi, y);
    } else {
      SameAdvanced(ps, s, s', k, lo, hi);
    }
  }

  lemma {:induction false} GroupStays(ps: seq<Param>, p: Program, l: Lists, s: LockState, k: Key, x: nat, y: nat)
    requires Setting(ps, p, l, s, k, x) && First(x) + PIECES <= NumPieces(ps) && GroupTurn(ps, l, s, k, x)
    requires y < NumPieces(ps)
    ensures |p.start| == |p.token| + 1 && |s.threads| == |p.token|
    ensures GroupTurn(ps, l, LockStep(p, l, s, y), k, x)
  {
    hide IsYcsb, ParamsOk, IsPiece, LockStep, Users, Advanced, ListsUsers, NoneTwice, HolderOf, OffsetOf;
    PieceFits(ps, p, y);
    GroupName(ps, p, l, s, k, x, y);
    GroupOffset(ps, p, l, s, k, x, y);
    PieceStep(p, l, s, y, KeyOfPiece(ps, y), k);
  }

  // ------------------------------------------------------------------ runs

  /** Some user's turn, or the group's, while x waits. */
  ghost predicate Waiting(ps: seq<Param>, p: Program, l: Lists, s: LockState, k: Key, x: nat) {
    && Setting(ps, p, l, s, k, x) && First(x) + PIECES <= NumPieces(ps)
    && (GroupTurn(ps, l, s, k, x) || exists c: nat :: c < First(x) && Turn(ps, l, s, k, c))
  }

  /** x is past the taking of its lock. */
  predicate IsIn(s: LockState, x: nat)
    requires x < |s.threads|
  {
    s.threads[x].pc > 3 * x
  }

  /** A step lets x in or leaves it waiting, and once in it stays so. */
  lemma {:induction false} StepOfWaiter(ps: seq<Param>, p: Program, l: Lists, s: LockState, x: nat, y: nat)
    requires IsYcsb(ps, p) && AllRegular(ps, s) && x < NumPieces(ps) && y < NumPieces(ps)
    ensures |p.start| == |p.token| + 1 && |s.threads| == |p.token|
    ensures var s' := LockStep(p, l, s, y);
            && AllRegular(ps, s')
            && (NotIn(s, x) ==> NotIn(s', x) || IsIn(s', x)) && (IsIn(s, x) ==> IsIn(s', x))
  {
    hide IsYcsb, ParamsOk, IsPiece, LockStep;
    PieceFits(ps, p, y);
    StaysRegular(ps, p, l, s, y);
    PieceStep(p, l, s, y, KeyOfPiece(ps, y), KeyOfPiece(ps, y));
  }

  lemma {:induction false} StepWaits(ps: seq<Param>, p: Program, l: Lists, s: LockState, k: Key, x: nat, y: nat)
    requires Waiting(ps, p, l, s, k, x) && y < NumPieces(ps)
    ensures |p.start| == |p.token| + 1 && |s.threads| == |p.token|
    ensures var s' := LockStep(p, l, s, y);
            AllRegular(ps, s') && (IsIn(s', x) || Waiting(ps, p, l, s', k, x))
  {
    hide IsYcsb, ParamsOk, ListsUsers, NoneTwice, Turn, GroupTurn, LockStep, AllRegular, OnRow, First;
    PieceFits(ps, p, y);
    StepOfWaiter(ps, p, l, s, x, y);
    if GroupTurn(ps, l, s, k, x) {
      GroupStays(ps, p, l, s, k, x, y);
    } else {
      var c: nat :| c < First(x) && Turn(ps, l, s, k, c);
      if y != c {
        TurnStays(ps, p, l, s, k, x, c, y);
      } else if s.threads[c].phase.Steady? {
        TurnAdvances(ps, p, l, s, k, x, c);
      } else {
        var d := TurnPasses(ps, p, l, s, k, x, c);
      }
    }
  }

  /** The first user of the row. */
  lemma {:induction false} FirstUser(ps: seq<Param>, k: Key, x: nat) returns (c: nat)
    requires ParamsOk(ps) && x < NumPieces(ps) && OnRow(ps, k, x)
    ensures c <= x && OnRow(ps, k, c) && Users(ps, k, c) == 0
    ensures forall v: nat | v < c :: !OnRow(ps, k, v)
  {
    hide ParamsOk, OnRow;
    c := 0;
    while !OnRow(ps, k, c)
      invariant c <= x && Users(ps, k, c) == 0 && forall v: nat | v < c :: !OnRow(ps, k, v)
      decreases x - c
    {
      c := c + 1;
    }
  }

  /** Before anything has happened. */
  ghost predicate Fresh(ps: seq<Param>, l: Lists, s: LockState, k: Key, c: nat)
    requires ParamsOk(ps)
  {
    && |s.threads| == NumPieces(ps) && (forall u: nat | u < NumPieces(ps) :: NotIn(s, u))
    && HolderOf(l, s, k) == c / PIECES && OffsetOf(l, s, k) == l.base(k)
    && c < NumPieces(ps) && OnRow(ps, k, c) && Users(ps, k, c) == 0
    && (forall v: nat | v < c :: !OnRow(ps, k, v))
  }

  lemma {:induction false} FreshTurn(ps: seq<Param>, l: Lists, s: LockState, k: Key, c: nat)
    requires ParamsOk(ps) && Fresh(ps, l, s, k, c)
    ensures Turn(ps, l, s, k, c)
  {
    hide ParamsOk, OnRow, Users, HolderOf, OffsetOf;
    assert NotIn(s, c);
  }

  lemma {:induction false} FreshGroup(ps: seq<Param>, l: Lists, s: LockState, k: Key, x: nat, c: nat)
    requires ParamsOk(ps) && Fresh(ps, l, s, k, c) && First(x) <= c <= x && First(x) + PIECES <= NumPieces(ps)
    ensures GroupTurn(ps, l, s, k, x)
  {
    hide ParamsOk, OnRow, HolderOf, OffsetOf;
    NoUsers(ps, k, First(x), c);
    forall v: nat | v < NumPieces(ps) ensures !HasAdvanced(s, v) { assert NotIn(s, v); }
    NoneAdvanced(ps, s, k, First(x), First(x) + PIECES);
    UsersMonotone(ps, k, 0, First(x));
    hide Users, Advanced;
    assert c / PIECES == x / PIECES;
  }

  lemma {:induction false} StartIsFresh(ps: seq<Param>, p: Program, l: Lists, rows: map<Key, Row>, k: Key, c: nat)
    requires IsYcsb(ps, p) && ListsUsers(ps, l, k) && c < NumPieces(ps) && OnRow(ps, k, c) && Users(ps, k, c) == 0
    requires forall v: nat | v < c :: !OnRow(ps, k, v)
    ensures |p.start| == |p.token| + 1 && Fresh(ps, l, LockInitial(p, rows), k, c)
  {
    hide IsYcsb, LockInitial, ParamsOk, OnRow, Users;
    PieceFits(ps, p, c);
    StartsOut(ps, p, rows);
    assert l.access(k.table, l.base(k) + Users(ps, k, c)) == c / PIECES;
  }

  lemma {:induction false} StartWaits(ps: seq<Param>, p: Program, l: Lists, rows: map<Key, Row>, k: Key, x: nat)
    requires IsYcsb(ps, p) && ListsUsers(ps, l, k) && x < NumPieces(ps) && OnRow(ps, k, x) && NoneTwice(ps, k, x)
    ensures |p.start| == |p.token| + 1 && Waiting(ps, p, l, LockInitial(p, rows), k, x)
  {
    hide IsYcsb, LockInitial, ParamsOk, OnRow, Users, Fresh, Turn, GroupTurn, ListsUsers, NoneTwice, First;
    PieceFits(ps, p, x);
    FirstFits(ps, x);
    StartsOut(ps, p, rows);
    AllAtStart(ps, LockInitial(p, rows));
    var c := FirstUser(ps, k, x);
    StartIsFresh(ps, p, l, rows, k, c);
    if c < First(x) {
      FreshTurn(ps, l, LockInitial(p, rows), k, c);
    } else {
      FreshGroup(ps, l, LockInitial(p, rows), k, x, c);
    }
  }

  lemma AllAtStart(ps: seq<Param>, s: LockState)
    requires |s.threads| == NumPieces(ps) && forall u: nat | u < NumPieces(ps) :: NotIn(s, u)
    ensures AllRegular(ps, s)
  {
    forall u: nat | u < NumPieces(ps) ensures Regular(s, u) { assert NotIn(s, u); }
  }

  lemma StartsOut(ps: seq<Param>, p: Program, rows: map<Key, Row>)
    requires IsYcsb(ps, p)
    ensures |p.start| == |p.token| + 1
    ensures var s := LockInitial(p, rows);
            && |s.threads| == NumPieces(ps) && s.lock == map[] && s.offset == map[]
            && forall u: nat | u < NumPieces(ps) :: NotIn(s, u)
  {
    hide IsPiece, ParamsOk;
  }

  /** In every run x gets in or waits. */
  lemma {:induction false} RunWaits(ps: seq<Param>, p: Program, l: Lists, rows: map<Key, Row>, schedule: seq<nat>,
                                    k: Key, x: nat)
    requires IsYcsb(ps, p) && ListsUsers(ps, l, k) && x < NumPieces(ps) && OnRow(ps, k, x) && NoneTwice(ps, k, x)
    requires IsSchedule(p, schedule)
    ensures |p.start| == |p.token| + 1 && AllRegular(ps, LockRun(p, l, rows, schedule))
    ensures IsIn(LockRun(p, l, rows, schedule), x) || Waiting(ps, p, l, LockRun(p, l, rows, schedule), k, x)
    decreases |schedule|
  {
    hide IsYcsb, ListsUsers, NoneTwice, OnRow, LockStep, LockInitial, GroupTurn, Turn;
    PieceFits(ps, p, x);
    hide ParamsOk;
    if schedule == [] {
      StartWaits(ps, p, l, rows, k, x);
    } else {
      var before, y := schedule[..|schedule| - 1], schedule[|schedule| - 1];
      RunWaits(ps, p, l, rows, before, k, x);
      var s := LockRun(p, l, rows, before);
      assert LockRun(p, l, rows, schedule) == LockStep(p, l, s, y);
      if IsIn(s, x) { StepOfWaiter(ps, p, l, s, x, y); } else { StepWaits(ps, p, l, s, k, x, y); }
    }
  }

  /** From wherever it waits, x can be let in. */
  lemma {:induction false} GroupLetsIn(ps: seq<Param>, p: Program, l: Lists, s: LockState, k: Key, x: nat)
    requires Setting(ps, p, l, s, k, x) && First(x) + PIECES <= NumPieces(ps) && GroupTurn(ps, l, s, k, x)
    ensures |p.start| == |p.token| + 1 && |s.threads| == |p.token| && IsIn(LockStep(p, l, s, x), x)
  {
    hide IsYcsb, ParamsOk, IsPiece, LockStep, Users, Advanced, ListsUsers, NoneTwice;
    PieceFits(ps, p, x);
    PieceStep(p, l, s, x, KeyOfPiece(ps, x), k);
  }

  lemma {:induction false} TurnLetsIn(ps: seq<Param>, p: Program, l: Lists, rows: map<Key, Row>, schedule: seq<nat>,
                                      k: Key, x: nat, c: nat) returns (longer: seq<nat>)
    requires IsYcsb(ps, p) && ListsUsers(ps, l, k) && x < NumPieces(ps) && OnRow(ps, k, x) && NoneTwice(ps, k, x)
    requires |p.start| == |p.token| + 1 && IsSchedule(p, schedule)
    requires AllRegular(ps, LockRun(p, l, rows, schedule)) && NotIn(LockRun(p, l, rows, schedule), x)
    requires First(x) + PIECES <= NumPieces(ps)
    requires GroupTurn(ps, l, LockRun(p, l, rows, schedule), k, x)
             || (c < First(x) && Turn(ps, l, LockRun(p, l, rows, schedule), k, c))
    ensures IsSchedule(p, longer) && schedule <= longer
    ensures |LockRun(p, l, rows, longer).threads| == NumPieces(ps) && IsIn(LockRun(p, l, rows, longer), x)
    decreases if GroupTurn(ps, l, LockRun(p, l, rows, schedule), k, x) then 0 else 1,
              First(x) - c, if c < NumPieces(ps) then 4 - Stage(LockRun(p, l, rows, schedule), c) else 0
  {
    hide IsYcsb, ListsUsers, NoneTwice, OnRow, LockStep, LockRun, GroupTurn, Turn, First;
    PieceFits(ps, p, x);
    hide ParamsOk;
    var s := LockRun(p, l, rows, schedule);
    if GroupTurn(ps, l, s, k, x) {
      GroupLetsIn(ps, p, l, s, k, x);
      RunSteps(p, l, rows, schedule, x);
      longer := schedule + [x];
    } else {
      TurnFits(ps, p, l, s, k, x, c);
      RunSteps(p, l, rows, schedule, c);
      StepOfWaiter(ps, p, l, s, x, c);
      OtherWaits(ps, p, l, s, x, c);
      var d := c;
      if s.threads[c].phase.Steady? {
        TurnAdvances(ps, p, l, s, k, x, c);
      } else {
        d := TurnPasses(ps, p, l, s, k, x, c);
      }
      longer := TurnLetsIn(ps, p, l, rows, schedule + [c], k, x, d);
    }
  }

  lemma TurnFits(ps: seq<Param>, p: Program, l: Lists, s: LockState, k: Key, x: nat, c: nat)
    requires IsYcsb(ps, p) && AllRegular(ps, s) && x < NumPieces(ps) && c < First(x)
    requires ParamsOk(ps) && Turn(ps, l, s, k, c)
    ensures c < NumPieces(ps) && c != x && c < First(x)
  {
    hide IsYcsb, ParamsOk, AllRegular;
  }

  /** The step of another piece does not let x in. */
  lemma OtherWaits(ps: seq<Param>, p: Program, l: Lists, s: LockState, x: nat, c: nat)
    requires IsYcsb(ps, p) && AllRegular(ps, s) && x < NumPieces(ps) && c < NumPieces(ps) && c != x && NotIn(s, x)
    ensures |p.start| == |p.token| + 1 && |s.threads| == |p.token| && NotIn(LockStep(p, l, s, c), x)
  {
    hide IsYcsb, ParamsOk, IsPiece, LockStep;
    PieceFits(ps, p, c);
    PieceStep(p, l, s, c, KeyOfPiece(ps, c), KeyOfPiece(ps, c));
  }

  // ------------------------------------------------------------------ in YCSB's terms

  /** An earlier transaction uses the row of piece x twice. */
  ghost predicate UsedTwiceBefore(ps: seq<Param>, x: nat)
    requires ParamsOk(ps) && x < NumPieces(ps)
  {
    exists a: nat, b: nat ::
      a < b < x && Clash(ps, a, b) && RowOfPiece(ps, b) == RowOfPiece(ps, x) && b / PIECES != x / PIECES
  }

  /** Some run leaves x without the lock, however it goes on. */
  ghost predicate CanBeLockedOut(p: Program, l: Lists, rows: map<Key, Row>, x: nat)
    requires |p.start| == |p.token| + 1 && x < |p.token|
  {
    exists schedule: seq<nat> :: LocksOut(p, l, rows, schedule, x)
  }

  lemma {:induction false} IsYcsbProgram(ps: seq<Param>, work: (nat, Local, Row) -> (Row, Local))
    requires ParamsOk(ps)
    ensures IsYcsb(ps, YcsbProgram(ps, work))
  {
    hide YcsbProgram, ParamsOk, IsPiece;
    forall u: nat | u < NumPieces(ps)
      ensures IsPiece(YcsbProgram(ps, work), u, KeyOfPiece(ps, u))
      ensures |YcsbProgram(ps, work).start| == |YcsbProgram(ps, work).token| + 1
      ensures |YcsbProgram(ps, work).token| == NumPieces(ps)
      ensures YcsbProgram(ps, work).token[u] == u / PIECES && YcsbProgram(ps, work).start[u] == 3 * u
    {
      PieceIs(ps, work, u);
      PieceAct(ps, work, u);
    }
    NumbersFit(ps, work);
  }

  lemma NumbersFit(ps: seq<Param>, work: (nat, Local, Row) -> (Row, Local))
    requires ParamsOk(ps)
    ensures |YcsbProgram(ps, work).start| == |YcsbProgram(ps, work).token| + 1
    ensures |YcsbProgram(ps, work).token| == NumPieces(ps)
  {
    hide Flatten, ParamsOk;
  }

  /** The locks that have been taken before a piece are those of the users before it. */
  lemma {:induction false} TakenByUsers(ps: seq<Param>, p: Program, k: Key, w: nat)
    requires IsYcsb(ps, p) && w <= NumPieces(ps)
    ensures ParamsOk(ps) && 3 * w <= |p.acts| && Acquires(p, k, 3 * w) == Users(ps, k, w)
    decreases w
  {
    hide IsYcsb, ParamsOk, Count;
    if w == 0 {
      NothingTaken(ps, p, k);
    } else {
      PieceFits(ps, p, w - 1);
      TakenByUsers(ps, p, k, w - 1);
      TakenBy(p, w - 1, KeyOfPiece(ps, w - 1), k);
    }
  }

  lemma NothingTaken(ps: seq<Param>, p: Program, k: Key)
    requires IsYcsb(ps, p)
    ensures ParamsOk(ps) && Acquires(p, k, 0) == 0
  {
    hide IsPiece, ParamsOk;
  }

  lemma {:induction false} TakenBy(p: Program, u: nat, ku: Key, k: Key)
    requires IsPiece(p, u, ku)
    ensures 3 * u + 3 <= |p.acts| && Acquires(p, k, 3 * u + 3) == Acquires(p, k, 3 * u) + if ku == k then 1 else 0
  {
    assert Acquires(p, k, 3 * u + 1) == Acquires(p, k, 3 * u) + if ku == k then 1 else 0;
    assert Acquires(p, k, 3 * u + 2) == Acquires(p, k, 3 * u + 1);
    assert Acquires(p, k, 3 * u + 3) == Acquires(p, k, 3 * u + 2);
  }

  lemma {:induction false} UsersAreListed(ps: seq<Param>, p: Program, l: Lists, k: Key)
    requires IsYcsb(ps, p) && WellFormedProgram(p) && ListsOk(p, l)
    ensures ParamsOk(ps) && ListsUsers(ps, l, k)
  {
    hide IsYcsb, WellFormedProgram, ListsOk, Users;
    TakenByUsers(ps, p, k, 0);
    hide ParamsOk;
    forall w: nat | w < NumPieces(ps) && OnRow(ps, k, w)
      ensures l.access(k.table, l.base(k) + Users(ps, k, w)) == w / PIECES
    {
      PieceFits(ps, p, w);
      TakenByUsers(ps, p, k, w);
      ListedAtPiece(p, l, w, k);
    }
  }

  lemma ListedAtPiece(p: Program, l: Lists, w: nat, k: Key)
    requires WellFormedProgram(p) && ListsOk(p, l) && IsPiece(p, w, k)
    ensures l.access(k.table, l.base(k) + Acquires(p, k, 3 * w)) == p.token[w]
  {
    hide Count, WellFormedProgram;
    assert ListedAt(p, l, 3 * w);
  }

  lemma NotUsedTwice(ps: seq<Param>, x: nat)
    requires ParamsOk(ps) && x < NumPieces(ps) && !UsedTwiceBefore(ps, x)
    ensures NoneTwice(ps, KeyOfPiece(ps, x), x)
  {
    hide ParamsOk, RowOfPiece;
    var k := KeyOfPiece(ps, x);
    forall a: nat, b: nat | a < b < First(x) && b < NumPieces(ps) && OnRow(ps, k, a) && OnRow(ps, k, b)
      ensures a / PIECES != b / PIECES
    {
      assert b / PIECES != x / PIECES && b < x;
      assert Clash(ps, a, b) <==> a / PIECES == b / PIECES;
    }
  }

  /** Where no earlier transaction uses the row twice, x can be let in from every state of every run. */
  lemma {:induction false} CanGetIn(ps: seq<Param>, p: Program, l: Lists, rows: map<Key, Row>, schedule: seq<nat>,
                                    k: Key, x: nat) returns (more: seq<nat>)
    requires IsYcsb(ps, p) && ListsUsers(ps, l, k) && x < NumPieces(ps) && OnRow(ps, k, x) && NoneTwice(ps, k, x)
    requires IsSchedule(p, schedule)
    ensures |p.start| == |p.token| + 1 && IsSchedule(p, more) && IsSchedule(p, schedule + more)
    ensures |LockRun(p, l, rows, schedule + more).threads| == NumPieces(ps)
    ensures IsIn(LockRun(p, l, rows, schedule + more), x)
  {
    hide IsYcsb, ParamsOk, ListsUsers, NoneTwice, OnRow, LockRun, Turn, GroupTurn, First;
    PieceFits(ps, p, x);
    RunWaits(ps, p, l, rows, schedule, k, x);
    var s := LockRun(p, l, rows, schedule);
    if IsIn(s, x) {
      more := [];
      assert schedule + more == schedule;
    } else {
      var c: nat := 0;
      if !GroupTurn(ps, l, s, k, x) { c :| c < First(x) && Turn(ps, l, s, k, c); }
      var longer := TurnLetsIn(ps, p, l, rows, schedule, k, x, c);
      more := longer[|schedule|..];
      assert longer == schedule + more;
    }
  }

  lemma {:induction false} NeverLockedOut(ps: seq<Param>, p: Program, l: Lists, rows: map<Key, Row>, schedule: seq<nat>,
                                          k: Key, x: nat)
    requires IsYcsb(ps, p) && ListsUsers(ps, l, k) && x < NumPieces(ps) && OnRow(ps, k, x) && NoneTwice(ps, k, x)
    ensures |p.start| == |p.token| + 1 && x < |p.token| && !LocksOut(p, l, rows, schedule, x)
  {
    hide IsYcsb, ParamsOk, ListsUsers, NoneTwice, OnRow, LockRun;
    PieceFits(ps, p, x);
    if IsSchedule(p, schedule) {
      var more := CanGetIn(ps, p, l, rows, schedule, k, x);
    }
  }

  /** A piece can be locked out of its row for good exactly when a transaction before its own uses
      the row twice. */
  lemma {:induction false} LockedOutIff(ps: seq<Param>, work: (nat, Local, Row) -> (Row, Local), l: Lists,
                                        rows: map<Key, Row>, x: nat)
    requires ParamsOk(ps) && ListsOf(l, 0, SubmittedNames(ps)) && x < NumPieces(ps)
    ensures |YcsbProgram(ps, work).start| == |YcsbProgram(ps, work).token| + 1
    ensures x < |YcsbProgram(ps, work).token|
    ensures CanBeLockedOut(YcsbProgram(ps, work), l, rows, x) <==> UsedTwiceBefore(ps, x)
  {
    hide YcsbProgram, ListsOf, LocksOut, RowOfPiece, IsYcsb, ListsUsers, NoneTwice, Clash, ListsOk, WellFormedProgram;
    hide ParamsOk, Bracketed, NamesDistinct;
    var p, k := YcsbProgram(ps, work), KeyOfPiece(ps, x);
    NumbersFit(ps, work);
    if UsedTwiceBefore(ps, x) {
      var a: nat, b: nat :|
        a < b < x && Clash(ps, a, b) && RowOfPiece(ps, b) == RowOfPiece(ps, x) && b / PIECES != x / PIECES;
      var schedule := ClashLocksOut(ps, work, l, rows, a, b, x);
    } else {
      IsYcsbProgram(ps, work);
      NothingClashes(ps);
      YcsbLocksReady(ps, 0, work, l);
      UsersAreListed(ps, p, l, k);
      NotUsedTwice(ps, x);
      forall schedule: seq<nat> ensures !LocksOut(p, l, rows, schedule, x) {
        NeverLockedOut(ps, p, l, rows, schedule, k, x);
      }
    }
  }

  lemma NothingClashes(ps: seq<Param>)
    requires ParamsOk(ps)
    ensures NoClash(ps, 0)
  {}
}
