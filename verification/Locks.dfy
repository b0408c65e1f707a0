/** GAccO's hand-off locks: every row has a list of the transactions that will take its lock, in
    transaction order; taking the lock is waiting until it names oneself, releasing it advances
    the row's offset and then stores the next name of the list. */
module Locks {
  import opened Execution

  datatype Kind = Acquire | Work | Release

  datatype Act = Act(kind: Kind, key: Key, unit: nat)

  type Local = seq<nat>

  /** What the threads of one epoch do: unit u performs acts[start[u]..start[u+1]], under the name
      token[u]; work gives the new row and the unit's new local variables. */
  datatype Program = Program(acts: seq<Act>, start: seq<nat>, token: seq<nat>, work: (nat, Local, Row) -> (Row, Local))

  /** The planner's arrays at the start: the access list of each table and where in it each row's
      names begin.  Entries that the planner did not write hold anything. */
  datatype Lists = Lists(access: (nat, nat) -> nat, base: Key -> nat)

  // ------------------------------------------------------------------ well-formedness

  ghost predicate WellFormedProgram(p: Program) {
    && |p.start| == |p.token| + 1 && p.start[0] == 0 && p.start[|p.token|] == |p.acts|
    && (forall u, v | 0 <= u <= v < |p.start| :: p.start[u] <= p.start[v])
    && (forall g | 0 <= g < |p.acts| ::
          var u := p.acts[g].unit; u < |p.token| && p.start[u] <= g < p.start[u + 1])
  }

  function Count(acts: seq<Act>, kind: Kind, k: Key, g: nat): (n: nat)
    requires g <= |acts|
  {
    if g == 0 then 0
    else Count(acts, kind, k, g - 1) + (if acts[g - 1].kind == kind && acts[g - 1].key == k then 1 else 0)
  }

  function Acquires(p: Program, k: Key, g: nat): nat
    requires g <= |p.acts|
  {
    Count(p.acts, Acquire, k, g)
  }

  function Releases(p: Program, k: Key, g: nat): nat
    requires g <= |p.acts|
  {
    Count(p.acts, Release, k, g)
  }

  ghost predicate BracketedAt(p: Program, g: nat)
    requires g < |p.acts|
  {
    Acquires(p, p.acts[g].key, g) == Releases(p, p.acts[g].key, g) + (if p.acts[g].kind == Acquire then 0 else 1)
  }

  /** Every unit takes a lock before it works on the row or gives the lock back, does not take a
      lock it has, and ends without locks. */
  ghost predicate Bracketed(p: Program)
    requires WellFormedProgram(p)
  {
    && (forall g: nat | g < |p.acts| :: BracketedAt(p, g))
    && (forall u: nat, k: Key | u < |p.start| && p.start[u] <= |p.acts| ::
       Acquires(p, k, p.start[u]) == Releases(p, k, p.start[u]))
  }

  ghost predicate ListedAt(p: Program, l: Lists, g: nat)
    requires WellFormedProgram(p) && g < |p.acts|
  {
    l.access(p.acts[g].key.table, l.base(p.acts[g].key) + Acquires(p, p.acts[g].key, g)) == p.token[p.acts[g].unit]
  }

  /** The n-th name in a row's list is that of the n-th unit to take the row's lock. */
  ghost predicate ListsOk(p: Program, l: Lists)
    requires WellFormedProgram(p)
  {
    forall g: nat | g < |p.acts| && p.acts[g].kind == Acquire :: ListedAt(p, l, g)
  }

  /** Among the first m units, different units that take the same lock have different names. */
  ghost predicate NamesDistinct(p: Program, m: nat)
    requires WellFormedProgram(p)
  {
    forall g: nat, h: nat | g < h < |p.acts| && p.acts[g].key == p.acts[h].key
                            && p.acts[g].unit < p.acts[h].unit < m ::
      p.token[p.acts[g].unit] != p.token[p.acts[h].unit]
  }

  ghost predicate LocksReady(p: Program, l: Lists, m: nat) {
    WellFormedProgram(p) && Bracketed(p) && ListsOk(p, l) && NamesDistinct(p, m) && m <= |p.token|
  }

  // ------------------------------------------------------------------ serial meaning

  datatype Data = Data(rows: map<Key, Row>, locals: map<nat, Local>) {
    function RowOf(k: Key): Row { if k in rows then rows[k] else [] }
    function LocalOf(u: nat): Local { if u in locals then locals[u] else [] }
  }

  function Perform(p: Program, d: Data, g: nat): Data
    requires g < |p.acts|
  {
    var a := p.acts[g];
    if a.kind == Work then
      var (row, local) := p.work(g, d.LocalOf(a.unit), d.RowOf(a.key));
      Data(d.rows[a.key := row], d.locals[a.unit := local])
    else d
  }

  /** The first g acts, one after the other. */
  function SerialData(p: Program, rows: map<Key, Row>, g: nat): Data
    requires g <= |p.acts|
  {
    if g == 0 then Data(rows, map[]) else Perform(p, SerialData(p, rows, g - 1), g - 1)
  }

  // ------------------------------------------------------------------ the machine

  datatype LockPhase = Steady | Handing(newOffset: nat)

  datatype ThreadState = ThreadState(pc: nat, phase: LockPhase)

  datatype LockState = LockState(threads: seq<ThreadState>, lock: map<Key, nat>, offset: map<Key, nat>, data: Data)

  function OffsetOf(l: Lists, s: LockState, k: Key): nat {
    if k in s.offset then s.offset[k] else l.base(k)
  }

  function HolderOf(l: Lists, s: LockState, k: Key): nat {
    if k in s.lock then s.lock[k] else l.access(k.table, l.base(k))
  }

  function LockInitial(p: Program, rows: map<Key, Row>): LockState
    requires |p.start| == |p.token| + 1
  {
    LockState(seq(|p.token|, u requires 0 <= u < |p.token| => ThreadState(p.start[u], Steady)), map[], map[],
      Data(rows, map[]))
  }

  /** One step of unit u; a spinning unit stays as it is.  A release takes two steps. */
  function LockStep(p: Program, l: Lists, s: LockState, u: nat): (s': LockState)
    requires |p.start| == |p.token| + 1 && |s.threads| == |p.token| && u < |p.token|
    ensures |s'.threads| == |p.token|
  {
    var t := s.threads[u];
    var g := t.pc;
    if g >= p.start[u + 1] || g >= |p.acts| then s
    else
      var k := p.acts[g].key;
      match p.acts[g].kind
      case Acquire =>
        if HolderOf(l, s, k) == p.token[u] then s.(threads := s.threads[u := ThreadState(g + 1, Steady)]) else s
      case Work =>
        s.(threads := s.threads[u := ThreadState(g + 1, Steady)], data := Perform(p, s.data, g))
      case Release =>
        match t.phase
        case Steady =>
          var newOffset := OffsetOf(l, s, k) + 1;
          s.(threads := s.threads[u := ThreadState(g, Handing(newOffset))], offset := s.offset[k := newOffset])
        case Handing(newOffset) =>
          s.(threads := s.threads[u := ThreadState(g + 1, Steady)], lock := s.lock[k := l.access(k.table, newOffset)])
  }

  function LockRun(p: Program, l: Lists, rows: map<Key, Row>, schedule: seq<nat>): (s: LockState)
    requires |p.start| == |p.token| + 1
    requires forall i | 0 <= i < |schedule| :: schedule[i] < |p.token|
    ensures |s.threads| == |p.token|
  {
    if schedule == [] then LockInitial(p, rows)
    else LockStep(p, l, LockRun(p, l, rows, schedule[..|schedule| - 1]), schedule[|schedule| - 1])
  }

  // ------------------------------------------------------------------ the lists

  lemma {:induction false} CountMonotone(acts: seq<Act>, kind: Kind, k: Key, g: nat, h: nat)
    requires g <= h <= |acts|
    ensures Count(acts, kind, k, g) <= Count(acts, kind, k, h)
    decreases h - g
  {
    if g < h { CountMonotone(acts, kind, k, g, h - 1); }
  }

  ghost predicate NoActs(acts: seq<Act>, k: Key, g: nat, h: nat) {
    forall i: nat | g <= i < h && i < |acts| :: acts[i].key != k
  }

  lemma {:induction false} CountQuiet(acts: seq<Act>, kind: Kind, k: Key, g: nat, h: nat)
    requires g <= h <= |acts| && NoActs(acts, k, g, h)
    ensures Count(acts, kind, k, g) == Count(acts, kind, k, h)
    decreases h - g
  {
    if g < h { CountQuiet(acts, kind, k, g, h - 1); }
  }

  /** The last time the lock was taken between lo and h. */
  lemma {:induction false} LastAcquire(acts: seq<Act>, k: Key, lo: nat, h: nat) returns (g: nat)
    requires lo <= h <= |acts| && Count(acts, Acquire, k, lo) < Count(acts, Acquire, k, h)
    ensures lo <= g < h && acts[g].kind == Acquire && acts[g].key == k
    ensures Count(acts, Acquire, k, g) + 1 == Count(acts, Acquire, k, h)
  {
    if acts[h - 1].kind == Acquire && acts[h - 1].key == k {
      g := h - 1;
    } else {
      g := LastAcquire(acts, k, lo, h - 1);
    }
  }

  /** Where the unit of act h took the lock that h needs. */
  lemma {:induction false} SectionStart(p: Program, h: nat) returns (g: nat)
    requires WellFormedProgram(p) && Bracketed(p) && h < |p.acts| && p.acts[h].kind != Acquire
    ensures g < h && p.acts[g].kind == Acquire && p.acts[g].key == p.acts[h].key && p.acts[g].unit == p.acts[h].unit
    ensures Acquires(p, p.acts[h].key, g) == Releases(p, p.acts[h].key, h)
  {
    var k, lo := p.acts[h].key, p.start[p.acts[h].unit];
    CountMonotone(p.acts, Release, k, lo, h);
    assert BracketedAt(p, h);
    assert Acquires(p, k, lo) == Releases(p, k, lo);
    g := LastAcquire(p.acts, k, lo, h);
    SameUnit(p, g, h);
  }

  lemma SameUnit(p: Program, g: nat, h: nat)
    requires WellFormedProgram(p) && h < |p.acts| && p.start[p.acts[h].unit] <= g <= h
    ensures p.acts[g].unit == p.acts[h].unit
  {}

  lemma {:induction false} UnitsInOrder(p: Program, g: nat, h: nat)
    requires WellFormedProgram(p) && g <= h < |p.acts|
    ensures p.acts[g].unit <= p.acts[h].unit
  {}

  /** The list names the unit of every act, at the number of releases before the act. */
  lemma {:induction false} ListNamesUnit(p: Program, l: Lists, h: nat)
    requires WellFormedProgram(p) && Bracketed(p) && ListsOk(p, l) && h < |p.acts|
    ensures var k := p.acts[h].key;
            l.access(k.table, l.base(k) + Releases(p, k, h)) == p.token[p.acts[h].unit]
  {
    hide Bracketed, ListsOk, WellFormedProgram, Count;
    var g := h;
    if p.acts[h].kind != Acquire {
      g := SectionStart(p, h);
    } else {
      TakesNextName(p, h);
    }
    NameAt(p, l, g);
  }

  lemma TakesNextName(p: Program, h: nat)
    requires WellFormedProgram(p) && Bracketed(p) && h < |p.acts| && p.acts[h].kind == Acquire
    ensures Acquires(p, p.acts[h].key, h) == Releases(p, p.acts[h].key, h)
  {
    hide Count, WellFormedProgram;
    assert BracketedAt(p, h);
  }

  lemma NameAt(p: Program, l: Lists, g: nat)
    requires WellFormedProgram(p) && ListsOk(p, l) && g < |p.acts| && p.acts[g].kind == Acquire
    ensures p.acts[g].unit < |p.token|
    ensures l.access(p.acts[g].key.table, l.base(p.acts[g].key) + Acquires(p, p.acts[g].key, g)) ==
            p.token[p.acts[g].unit]
  {
    hide Count, WellFormedProgram;
    UnitInRange(p, g);
    assert ListedAt(p, l, g);
  }

  lemma UnitInRange(p: Program, g: nat)
    requires WellFormedProgram(p) && g < |p.acts|
    ensures p.acts[g].unit < |p.token|
  {}

  // ------------------------------------------------------------------ the invariant

  ghost predicate Done(p: Program, s: LockState, g: nat)
    requires WellFormedProgram(p) && |s.threads| == |p.token| && g < |p.acts|
  {
    s.threads[p.acts[g].unit].pc > g
  }

  /** The acts on a row happen in serial order. */
  ghost predicate InOrder(p: Program, s: LockState)
    requires WellFormedProgram(p) && |s.threads| == |p.token|
  {
    forall g: nat, h: nat | g < h < |p.acts| && p.acts[g].key == p.acts[h].key :: Done(p, s, h) ==> Done(p, s, g)
  }

  /** The acts on k that have happened are those before f, which is the next act on k or the end. */
  ghost predicate Front(p: Program, s: LockState, k: Key, f: nat)
    requires WellFormedProgram(p) && |s.threads| == |p.token|
  {
    && f <= |p.acts| && (f < |p.acts| ==> p.acts[f].key == k)
    && forall g: nat | g < |p.acts| && p.acts[g].key == k :: Done(p, s, g) <==> g < f
  }

  ghost predicate IsHanding(p: Program, s: LockState, k: Key, f: nat)
    requires WellFormedProgram(p) && |s.threads| == |p.token|
  {
    f < |p.acts| && p.acts[f].key == k && s.threads[p.acts[f].unit].pc == f && s.threads[p.acts[f].unit].phase.Handing?
  }

  ghost predicate KeyOk(p: Program, l: Lists, rows: map<Key, Row>, s: LockState, k: Key, f: nat)
    requires WellFormedProgram(p) && |s.threads| == |p.token| && f <= |p.acts|
  {
    && HolderOf(l, s, k) == l.access(k.table, l.base(k) + Releases(p, k, f))
    && OffsetOf(l, s, k) == l.base(k) + Releases(p, k, f) + (if IsHanding(p, s, k, f) then 1 else 0)
    && s.data.RowOf(k) == SerialData(p, rows, f).RowOf(k)
  }

  ghost predicate ThreadOk(p: Program, l: Lists, rows: map<Key, Row>, s: LockState, u: nat)
    requires WellFormedProgram(p) && |s.threads| == |p.token| && u < |p.token|
  {
    var t := s.threads[u];
    && p.start[u] <= t.pc <= p.start[u + 1] <= |p.acts|
    && s.data.LocalOf(u) == SerialData(p, rows, t.pc).LocalOf(u)
    && (t.phase.Handing? ==>
          && t.pc < p.start[u + 1] && p.acts[t.pc].kind == Release
          && t.phase.newOffset == l.base(p.acts[t.pc].key) + Releases(p, p.acts[t.pc].key, t.pc) + 1)
  }

  ghost predicate LockInv(p: Program, l: Lists, rows: map<Key, Row>, s: LockState, m: nat)
    requires WellFormedProgram(p)
  {
    && |s.threads| == |p.token|
    && InOrder(p, s)
    && (forall u: nat | u < |p.token| :: ThreadOk(p, l, rows, s, u))
    && (forall u: nat | m <= u < |p.token| :: s.threads[u] == ThreadState(p.start[u], Steady))
    && (forall k: Key, f: nat | Front(p, s, k, f) :: KeyOk(p, l, rows, s, k, f))
  }

  // ------------------------------------------------------------- who may act on a row

  lemma {:induction false} FindFront(p: Program, s: LockState, k: Key, n: nat) returns (f: nat)
    requires WellFormedProgram(p) && |s.threads| == |p.token| && n <= |p.acts|
    ensures f <= n && (forall g: nat | g < f && p.acts[g].key == k :: Done(p, s, g))
    ensures f < n ==> p.acts[f].key == k && !Done(p, s, f)
  {
    if n == 0 {
      f := 0;
    } else {
      f := FindFront(p, s, k, n - 1);
      if f == n - 1 && (p.acts[f].key != k || Done(p, s, f)) {
        f := n;
      }
    }
  }

  lemma {:induction false} FrontExists(p: Program, s: LockState, k: Key) returns (f: nat)
    requires WellFormedProgram(p) && |s.threads| == |p.token| && InOrder(p, s)
    ensures Front(p, s, k, f)
  {
    f := FindFront(p, s, k, |p.acts|);
  }

  /** A unit that has the lock, or is named by it, is the next to act on the row. */
  lemma {:induction false} HolderIsNext(p: Program, s: LockState, u: nat)
    requires WellFormedProgram(p) && Bracketed(p) && |s.threads| == |p.token| && u < |p.token| && InOrder(p, s)
    requires p.start[u] <= s.threads[u].pc < p.start[u + 1] <= |p.acts|
    requires p.acts[s.threads[u].pc].kind != Acquire
    ensures Front(p, s, p.acts[s.threads[u].pc].key, s.threads[u].pc)
  {
    var h := s.threads[u].pc;
    AtUnit(p, u, h);
    var g := SectionStart(p, h);
    hide Bracketed, Acquires, Releases;
    DoneUntilSection(p, s, g, h);
  }

  lemma {:induction false} DoneUntilSection(p: Program, s: LockState, g: nat, h: nat)
    requires WellFormedProgram(p) && |s.threads| == |p.token| && InOrder(p, s) && g < h < |p.acts|
    requires p.acts[g].key == p.acts[h].key && p.acts[g].unit == p.acts[h].unit && s.threads[p.acts[h].unit].pc == h
    ensures Front(p, s, p.acts[h].key, h)
  {
    hide WellFormedProgram;
    forall i: nat | i < |p.acts| && p.acts[i].key == p.acts[h].key ensures Done(p, s, i) <==> i < h {
      assert Done(p, s, g) && !Done(p, s, h);
      if g < i < h { UnitsInOrder(p, g, i); UnitsInOrder(p, i, h); }
    }
  }

  lemma AtUnit(p: Program, u: nat, g: nat)
    requires WellFormedProgram(p) && u < |p.token| && p.start[u] <= g < p.start[u + 1] <= |p.acts|
    ensures p.acts[g].unit == u
  {}

  lemma InvAtUnit(p: Program, l: Lists, rows: map<Key, Row>, s: LockState, m: nat, u: nat) returns (g: nat, k: Key)
    requires LocksReady(p, l, m) && LockInv(p, l, rows, s, m) && u < m
    requires s.threads[u].pc < p.start[u + 1]
    ensures WellFormedProgram(p) && |s.threads| == |p.token| && InOrder(p, s) && g == s.threads[u].pc
    ensures p.start[u] <= g < p.start[u + 1] <= |p.acts| && k == p.acts[g].key && p.acts[g].unit == u
  {
    g := s.threads[u].pc;
    assert ThreadOk(p, l, rows, s, u);
    AtUnit(p, u, g);
    k := p.acts[g].key;
  }

  lemma InvAtFront(p: Program, l: Lists, rows: map<Key, Row>, s: LockState, m: nat, k: Key, f: nat)
    requires LocksReady(p, l, m) && LockInv(p, l, rows, s, m) && Front(p, s, k, f)
    ensures f <= |p.acts| && HolderOf(l, s, k) == l.access(k.table, l.base(k) + Releases(p, k, f))
  {
    assert KeyOk(p, l, rows, s, k, f);
  }

  lemma {:induction false} NamedIsNext(p: Program, l: Lists, rows: map<Key, Row>, s: LockState, m: nat, u: nat)
    requires LocksReady(p, l, m) && LockInv(p, l, rows, s, m) && u < m
    requires s.threads[u].pc < p.start[u + 1] && p.acts[s.threads[u].pc].kind == Acquire
    requires HolderOf(l, s, p.acts[s.threads[u].pc].key) == p.token[u]
    ensures Front(p, s, p.acts[s.threads[u].pc].key, s.threads[u].pc)
  {
    hide WellFormedProgram, LocksReady, LockInv, ThreadOk, KeyOk, InOrder;
    var g, k := InvAtUnit(p, l, rows, s, m, u);
    var f := FrontExists(p, s, k);
    InvAtFront(p, l, rows, s, m, k, f);
    assert !Done(p, s, g);
    if f < g {
      assert !Done(p, s, f);
      EarlierNameDiffers(p, l, m, f, g);
    }
  }

  /** Before a unit's turn the list names another unit. */
  lemma {:induction false} EarlierNameDiffers(p: Program, l: Lists, m: nat, f: nat, g: nat)
    requires LocksReady(p, l, m) && f < g < |p.acts| && p.acts[f].key == p.acts[g].key && p.acts[g].unit < m
    requires p.acts[f].unit != p.acts[g].unit
    ensures var k := p.acts[f].key;
            l.access(k.table, l.base(k) + Releases(p, k, f)) != p.token[p.acts[g].unit]
  {
    hide Bracketed, ListsOk, WellFormedProgram, Releases;
    UnitsInOrder(p, f, g);
    ListNamesUnit(p, l, f);
    assert p.token[p.acts[f].unit] != p.token[p.acts[g].unit];
  }

  // --------------------------------------------------------------- one act completes

  /** Unit u has completed act g. */
  ghost predicate Completes(p: Program, s: LockState, s': LockState, u: nat, g: nat)
    requires WellFormedProgram(p)
  {
    && |s.threads| == |p.token| && u < |p.token|
    && s.threads[u].pc == g && p.start[u] <= g < p.start[u + 1] <= |p.acts| && p.acts[g].unit == u
    && s'.threads == s.threads[u := ThreadState(g + 1, Steady)]
  }

  lemma {:induction false} CompletionKeepsOrder(p: Program, s: LockState, s': LockState, u: nat, g: nat)
    requires WellFormedProgram(p) && Completes(p, s, s', u, g) && InOrder(p, s)
    requires Front(p, s, p.acts[g].key, g)
    ensures InOrder(p, s')
    ensures forall h: nat | h < |p.acts| :: Done(p, s', h) <==> Done(p, s, h) || h == g
  {
    forall h: nat | h < |p.acts| ensures Done(p, s', h) <==> Done(p, s, h) || h == g {}
    forall i: nat, h: nat | i < h < |p.acts| && p.acts[i].key == p.acts[h].key && Done(p, s', h)
      ensures Done(p, s', i)
    {}
  }

  /** The fronts after the completion come from the fronts before it. */
  lemma {:induction false} FrontsMove(p: Program, s: LockState, s': LockState, u: nat, g: nat, k: Key, f: nat)
    requires WellFormedProgram(p) && Completes(p, s, s', u, g) && InOrder(p, s)
    requires Front(p, s, p.acts[g].key, g) && Front(p, s', k, f)
    ensures k != p.acts[g].key ==> Front(p, s, k, f)
    ensures k == p.acts[g].key ==> g + 1 <= f && NoActs(p.acts, k, g + 1, f)
  {
    CompletionKeepsOrder(p, s, s', u, g);
    if k == p.acts[g].key {
      assert Done(p, s', g);
      forall i: nat | g + 1 <= i < f && i < |p.acts| ensures p.acts[i].key != k {}
    }
  }

  lemma {:induction false} RowQuiet(p: Program, rows: map<Key, Row>, k: Key, g: nat, h: nat)
    requires g <= h <= |p.acts| && NoActs(p.acts, k, g, h)
    ensures SerialData(p, rows, g).RowOf(k) == SerialData(p, rows, h).RowOf(k)
    decreases h - g
  {
    if g < h { RowQuiet(p, rows, k, g, h - 1); }
  }

  ghost predicate NoUnit(acts: seq<Act>, u: nat, g: nat, h: nat) {
    forall i: nat | g <= i < h && i < |acts| :: acts[i].unit != u
  }

  lemma {:induction false} LocalQuiet(p: Program, rows: map<Key, Row>, u: nat, g: nat, h: nat)
    requires g <= h <= |p.acts| && NoUnit(p.acts, u, g, h)
    ensures SerialData(p, rows, g).LocalOf(u) == SerialData(p, rows, h).LocalOf(u)
    decreases h - g
  {
    if g < h { LocalQuiet(p, rows, u, g, h - 1); }
  }
}
