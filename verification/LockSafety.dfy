/** Over every interleaving the acts on a row happen in serial order: one unit at a time is
    between taking and releasing the row's lock, the lock is granted in transaction order, and
    the rows end up as in the serial run. */
module LockSafety {
  import opened Execution
  import opened Locks

  /** What changes in storage when unit u completes act g. */
  ghost predicate Effect(p: Program, l: Lists, rows: map<Key, Row>, s: LockState, s': LockState, u: nat, g: nat)
    requires g < |p.acts|
  {
    var k := p.acts[g].key;
    && HolderOf(l, s', k) == l.access(k.table, l.base(k) + Releases(p, k, g + 1))
    && OffsetOf(l, s', k) == l.base(k) + Releases(p, k, g + 1)
    && s'.data.RowOf(k) == SerialData(p, rows, g + 1).RowOf(k)
    && s'.data.LocalOf(u) == SerialData(p, rows, g + 1).LocalOf(u)
    && (forall k': Key | k' != k ::
          && HolderOf(l, s', k') == HolderOf(l, s, k')
          && OffsetOf(l, s', k') == OffsetOf(l, s, k')
          && s'.data.RowOf(k') == s.data.RowOf(k'))
    && (forall v: nat | v != u :: s'.data.LocalOf(v) == s.data.LocalOf(v))
  }

  /** A unit handing over a lock is the next to act on the row, so it is the only one. */
  lemma {:induction false} HandingIsFront(p: Program, l: Lists, rows: map<Key, Row>, s: LockState, m: nat, k: Key,
                                          f: nat)
    requires LocksReady(p, l, m) && LockInv(p, l, rows, s, m) && IsHanding(p, s, k, f)
    ensures Front(p, s, k, f) && p.acts[f].kind == Release
  {
    assert ThreadOk(p, l, rows, s, p.acts[f].unit);
    HolderIsNext(p, s, p.acts[f].unit);
  }

  /** After the completion nobody is handing over the row. */
  lemma {:induction false} NobodyHanding(p: Program, l: Lists, rows: map<Key, Row>, s: LockState, s': LockState, m: nat,
                                         u: nat, g: nat, f: nat)
    requires LocksReady(p, l, m) && LockInv(p, l, rows, s, m) && Completes(p, s, s', u, g)
    requires Front(p, s, p.acts[g].key, g) && f > g
    ensures !IsHanding(p, s', p.acts[g].key, f)
  {
    var k := p.acts[g].key;
    if IsHanding(p, s', k, f) {
      assert IsHanding(p, s, k, f);
      HandingIsFront(p, l, rows, s, m, k, f);
      hide LockInv, LocksReady;
      assert false;
    }
  }

  lemma {:induction false} RowOkAfter(p: Program, l: Lists, rows: map<Key, Row>, s: LockState, s': LockState, m: nat,
                                      u: nat, g: nat, f: nat)
    requires LocksReady(p, l, m) && LockInv(p, l, rows, s, m) && Completes(p, s, s', u, g)
    requires Front(p, s, p.acts[g].key, g) && Effect(p, l, rows, s, s', u, g)
    requires Front(p, s', p.acts[g].key, f)
    ensures KeyOk(p, l, rows, s', p.acts[g].key, f)
  {
    FrontsMove(p, s, s', u, g, p.acts[g].key, f);
    NobodyHanding(p, l, rows, s, s', m, u, g, f);
    hide LockInv, LocksReady, NoActs, IsHanding, Effect, KeyOk;
    RowSettled(p, l, rows, s, s', u, g, f);
  }

  lemma {:induction false} RowSettled(p: Program, l: Lists, rows: map<Key, Row>, s: LockState, s': LockState, u: nat,
                                      g: nat, f: nat)
    requires WellFormedProgram(p) && g < f <= |p.acts| && |s'.threads| == |p.token|
    requires Effect(p, l, rows, s, s', u, g)
    requires NoActs(p.acts, p.acts[g].key, g + 1, f) && !IsHanding(p, s', p.acts[g].key, f)
    ensures KeyOk(p, l, rows, s', p.acts[g].key, f)
  {
    hide WellFormedProgram, Count, SerialData, NoActs, IsHanding;
    CountQuiet(p.acts, Release, p.acts[g].key, g + 1, f);
    RowQuiet(p, rows, p.acts[g].key, g + 1, f);
  }

  lemma {:induction false} OtherRowOkAfter(p: Program, l: Lists, rows: map<Key, Row>, s: LockState, s': LockState,
                                           m: nat, u: nat, g: nat, k: Key, f: nat)
    requires LocksReady(p, l, m) && LockInv(p, l, rows, s, m) && Completes(p, s, s', u, g)
    requires Front(p, s, p.acts[g].key, g) && Effect(p, l, rows, s, s', u, g)
    requires Front(p, s', k, f) && k != p.acts[g].key
    ensures KeyOk(p, l, rows, s', k, f)
  {
    FrontsMove(p, s, s', u, g, k, f);
    assert KeyOk(p, l, rows, s, k, f);
    OtherRowHanding(p, s, s', u, g, k, f);
    hide LockInv, LocksReady, Releases, SerialData, Front, IsHanding, WellFormedProgram, Completes;
  }

  lemma {:induction false} OtherRowHanding(p: Program, s: LockState, s': LockState, u: nat, g: nat, k: Key, f: nat)
    requires WellFormedProgram(p) && Completes(p, s, s', u, g) && k != p.acts[g].key
    ensures IsHanding(p, s', k, f) <==> IsHanding(p, s, k, f)
  {}

  lemma {:induction false} ThreadsOkAfter(p: Program, l: Lists, rows: map<Key, Row>, s: LockState, s': LockState,
                                          m: nat, u: nat, g: nat, v: nat)
    requires LocksReady(p, l, m) && LockInv(p, l, rows, s, m) && Completes(p, s, s', u, g)
    requires Effect(p, l, rows, s, s', u, g) && v < |p.token|
    ensures ThreadOk(p, l, rows, s', v)
  {
    assert ThreadOk(p, l, rows, s, v);
    hide LockInv, LocksReady, Count, SerialData;
  }

  lemma {:induction false} CompletionKeepsInv(p: Program, l: Lists, rows: map<Key, Row>, s: LockState, s': LockState,
                                              m: nat, u: nat, g: nat)
    requires LocksReady(p, l, m) && LockInv(p, l, rows, s, m) && Completes(p, s, s', u, g) && u < m
    requires Front(p, s, p.acts[g].key, g) && Effect(p, l, rows, s, s', u, g)
    ensures LockInv(p, l, rows, s', m)
  {
    CompletionKeepsOrder(p, s, s', u, g);
    forall v: nat | v < |p.token| ensures ThreadOk(p, l, rows, s', v) {
      ThreadsOkAfter(p, l, rows, s, s', m, u, g, v);
    }
    forall k: Key, f: nat | Front(p, s', k, f) ensures KeyOk(p, l, rows, s', k, f) {
      if k == p.acts[g].key {
        RowOkAfter(p, l, rows, s, s', m, u, g, f);
      } else {
        OtherRowOkAfter(p, l, rows, s, s', m, u, g, k, f);
      }
    }
    hide ThreadOk, KeyOk, Front, InOrder, Effect;
  }

  // ------------------------------------------------------------------ the kinds of act

  /** What the invariant says of one unit. */
  lemma InvOfUnit(p: Program, l: Lists, rows: map<Key, Row>, s: LockState, m: nat, u: nat)
    requires LocksReady(p, l, m) && LockInv(p, l, rows, s, m) && u < |p.token|
    ensures WellFormedProgram(p) && Bracketed(p) && |p.start| == |p.token| + 1 && m <= |p.token|
    ensures |s.threads| == |p.token| && InOrder(p, s) && ThreadOk(p, l, rows, s, u)
    ensures p.start[u] <= s.threads[u].pc <= p.start[u + 1] <= |p.acts|
    ensures s.threads[u].pc < p.start[u + 1] ==> p.acts[s.threads[u].pc].unit == u
    ensures s.threads[u].phase.Handing? ==>
              s.threads[u].pc < p.start[u + 1] && p.acts[s.threads[u].pc].kind == Release
  {
    hide Bracketed, ListsOk, NamesDistinct, Front, KeyOk, InOrder;
    if s.threads[u].pc < p.start[u + 1] { AtUnit(p, u, s.threads[u].pc); }
  }

  lemma FrontIsOk(p: Program, l: Lists, rows: map<Key, Row>, s: LockState, m: nat, k: Key, f: nat)
    requires WellFormedProgram(p) && LockInv(p, l, rows, s, m) && Front(p, s, k, f)
    ensures f <= |p.acts| && KeyOk(p, l, rows, s, k, f)
  {
    hide WellFormedProgram, InOrder, ThreadOk, KeyOk;
  }

  /** A unit that can complete its act. */
  ghost predicate Completing(p: Program, l: Lists, rows: map<Key, Row>, s: LockState, u: nat, g: nat)
    requires WellFormedProgram(p)
  {
    && |p.start| == |p.token| + 1 && |s.threads| == |p.token| && u < |p.token|
    && s.threads[u].pc == g && p.start[u] <= g < p.start[u + 1] <= |p.acts| && p.acts[g].unit == u
    && ThreadOk(p, l, rows, s, u) && KeyOk(p, l, rows, s, p.acts[g].key, g)
    && (p.acts[g].kind == Acquire ==> HolderOf(l, s, p.acts[g].key) == p.token[u])
    && (p.acts[g].kind == Release ==> s.threads[u].phase.Handing?)
  }

  lemma OneMoreReleased(p: Program, g: nat)
    requires g < |p.acts|
    ensures Releases(p, p.acts[g].key, g + 1) ==
            Releases(p, p.acts[g].key, g) + if p.acts[g].kind == Release then 1 else 0
  {}

  lemma OneMorePerformed(p: Program, rows: map<Key, Row>, g: nat)
    requires g < |p.acts|
    ensures SerialData(p, rows, g + 1) == Perform(p, SerialData(p, rows, g), g)
  {}

  lemma {:induction false} AcquireEffect(p: Program, l: Lists, rows: map<Key, Row>, s: LockState, u: nat, g: nat)
    requires WellFormedProgram(p) && Completing(p, l, rows, s, u, g) && p.acts[g].kind == Acquire
    ensures Completes(p, s, LockStep(p, l, s, u), u, g) && Effect(p, l, rows, s, LockStep(p, l, s, u), u, g)
  {
    hide WellFormedProgram, Count, SerialData;
    OneMoreReleased(p, g);
    OneMorePerformed(p, rows, g);
  }

  lemma {:induction false} WorkEffect(p: Program, l: Lists, rows: map<Key, Row>, s: LockState, u: nat, g: nat)
    requires WellFormedProgram(p) && Completing(p, l, rows, s, u, g) && p.acts[g].kind == Work
    ensures Completes(p, s, LockStep(p, l, s, u), u, g) && Effect(p, l, rows, s, LockStep(p, l, s, u), u, g)
  {
    hide WellFormedProgram, Count, SerialData;
    OneMoreReleased(p, g);
    OneMorePerformed(p, rows, g);
  }

  lemma {:induction false} ReleaseEffect(p: Program, l: Lists, rows: map<Key, Row>, s: LockState, u: nat, g: nat)
    requires WellFormedProgram(p) && Completing(p, l, rows, s, u, g) && p.acts[g].kind == Release
    ensures Completes(p, s, LockStep(p, l, s, u), u, g) && Effect(p, l, rows, s, LockStep(p, l, s, u), u, g)
  {
    hide WellFormedProgram, Count, SerialData;
    OneMoreReleased(p, g);
    OneMorePerformed(p, rows, g);
  }

  /** A step that completes an act has that act's effect. */
  lemma {:induction false} StepCompletes(p: Program, l: Lists, rows: map<Key, Row>, s: LockState, u: nat, g: nat)
    requires WellFormedProgram(p) && Completing(p, l, rows, s, u, g)
    ensures Completes(p, s, LockStep(p, l, s, u), u, g) && Effect(p, l, rows, s, LockStep(p, l, s, u), u, g)
  {
    hide WellFormedProgram, Effect, Completes, LockStep, ThreadOk, KeyOk;
    match p.acts[g].kind
    case Acquire => AcquireEffect(p, l, rows, s, u, g);
    case Work => WorkEffect(p, l, rows, s, u, g);
    case Release => ReleaseEffect(p, l, rows, s, u, g);
  }

  lemma {:induction false} AcquireKeepsInv(p: Program, l: Lists, rows: map<Key, Row>, s: LockState, m: nat, u: nat)
    requires LocksReady(p, l, m) && LockInv(p, l, rows, s, m) && u < m
    requires s.threads[u].pc < p.start[u + 1] && p.acts[s.threads[u].pc].kind == Acquire
    requires HolderOf(l, s, p.acts[s.threads[u].pc].key) == p.token[u]
    ensures LockInv(p, l, rows, LockStep(p, l, s, u), m)
  {
    hide LockInv, LocksReady, WellFormedProgram, Bracketed, InOrder, ThreadOk, KeyOk, Front;
    hide Effect, Completes, LockStep;
    InvSize(p, l, rows, s, m);
    InvOfUnit(p, l, rows, s, m, u);
    var g := s.threads[u].pc;
    NamedIsNext(p, l, rows, s, m, u);
    FrontIsOk(p, l, rows, s, m, p.acts[g].key, g);
    StepCompletes(p, l, rows, s, u, g);
    CompletionKeepsInv(p, l, rows, s, LockStep(p, l, s, u), m, u, g);
  }

  lemma InvSize(p: Program, l: Lists, rows: map<Key, Row>, s: LockState, m: nat)
    requires LocksReady(p, l, m) && LockInv(p, l, rows, s, m)
    ensures |p.start| == |p.token| + 1 && m <= |p.token| == |s.threads|
  {
    hide Bracketed, ListsOk, NamesDistinct, Front, KeyOk, InOrder, ThreadOk;
  }

  /** Work, or the second half of a release. */
  lemma {:induction false} HolderKeepsInv(p: Program, l: Lists, rows: map<Key, Row>, s: LockState, m: nat, u: nat)
    requires LocksReady(p, l, m) && LockInv(p, l, rows, s, m) && u < m
    requires s.threads[u].pc < p.start[u + 1] && p.acts[s.threads[u].pc].kind != Acquire
    requires p.acts[s.threads[u].pc].kind == Release ==> s.threads[u].phase.Handing?
    ensures LockInv(p, l, rows, LockStep(p, l, s, u), m)
  {
    hide LockInv, LocksReady, WellFormedProgram, Bracketed, InOrder, ThreadOk, KeyOk, Front;
    hide Effect, Completes, LockStep;
    InvSize(p, l, rows, s, m);
    InvOfUnit(p, l, rows, s, m, u);
    var g := s.threads[u].pc;
    HolderIsNext(p, s, u);
    FrontIsOk(p, l, rows, s, m, p.acts[g].key, g);
    StepCompletes(p, l, rows, s, u, g);
    CompletionKeepsInv(p, l, rows, s, LockStep(p, l, s, u), m, u, g);
  }

  /** The first half of a release: everything but the unit's phase and the row's offset is kept. */
  ghost predicate Advances(p: Program, l: Lists, s: LockState, s': LockState, u: nat, g: nat)
    requires g < |p.acts|
  {
    var k := p.acts[g].key;
    var n := OffsetOf(l, s, k) + 1;
    && u < |s.threads| && s.threads[u].pc == g && s.threads[u].phase.Steady?
    && s'.threads == s.threads[u := ThreadState(g, Handing(n))] && s'.offset == s.offset[k := n]
    && s'.lock == s.lock && s'.data == s.data
  }

  lemma {:induction false} AdvanceKeepsThread(p: Program, l: Lists, rows: map<Key, Row>, s: LockState, s': LockState,
                                              u: nat, g: nat, v: nat)
    requires WellFormedProgram(p) && |p.start| == |p.token| + 1 && |s.threads| == |p.token| && g < |p.acts|
    requires g < p.start[p.acts[g].unit + 1] && p.acts[g].unit == u && p.acts[g].kind == Release
    requires Advances(p, l, s, s', u, g) && KeyOk(p, l, rows, s, p.acts[g].key, g)
    requires v < |p.token| && ThreadOk(p, l, rows, s, v)
    ensures ThreadOk(p, l, rows, s', v)
  {
    hide WellFormedProgram, Count, SerialData;
  }

  lemma {:induction false} AdvanceKeepsKey(p: Program, l: Lists, rows: map<Key, Row>, s: LockState, s': LockState,
                                           u: nat, g: nat, k: Key, f: nat)
    requires WellFormedProgram(p) && |p.start| == |p.token| + 1 && |s.threads| == |p.token| && g < |p.acts|
    requires p.acts[g].unit == u && Advances(p, l, s, s', u, g) && f <= |p.acts|
    requires KeyOk(p, l, rows, s, k, f) && (k == p.acts[g].key ==> f == g) && (f < |p.acts| ==> p.acts[f].key == k)
    ensures KeyOk(p, l, rows, s', k, f)
  {
    assert f < |p.acts| ==> p.acts[f].unit < |p.token|;
    hide WellFormedProgram, Count, SerialData;
  }

  lemma {:induction false} AdvanceKeepsFronts(p: Program, l: Lists, s: LockState, s': LockState, u: nat, g: nat)
    requires WellFormedProgram(p) && |s.threads| == |p.token| && g < |p.acts| && Advances(p, l, s, s', u, g)
    ensures |s'.threads| == |p.token| && (InOrder(p, s) ==> InOrder(p, s'))
    ensures forall k: Key, f: nat :: Front(p, s', k, f) <==> Front(p, s, k, f)
  {
    forall h: nat | h < |p.acts| ensures Done(p, s', h) <==> Done(p, s, h) {}
    hide WellFormedProgram, Advances, Done;
  }

  lemma OneFront(p: Program, s: LockState, k: Key, f: nat, g: nat)
    requires WellFormedProgram(p) && |s.threads| == |p.token| && Front(p, s, k, f) && Front(p, s, k, g)
    ensures f == g && (f < |p.acts| ==> p.acts[f].key == k)
  {
    hide WellFormedProgram;
  }

  lemma StepAdvances(p: Program, l: Lists, s: LockState, u: nat, g: nat)
    requires |p.start| == |p.token| + 1 && |s.threads| == |p.token| && u < |p.token|
    requires s.threads[u].pc == g < p.start[u + 1] <= |p.acts|
    requires p.acts[g].kind == Release && s.threads[u].phase.Steady?
    ensures Advances(p, l, s, LockStep(p, l, s, u), u, g)
  {}

  /** The first half of a release only advances the offset. */
  lemma {:induction false} AdvanceKeepsInv(p: Program, l: Lists, rows: map<Key, Row>, s: LockState, m: nat, u: nat)
    requires LocksReady(p, l, m) && LockInv(p, l, rows, s, m) && u < m
    requires s.threads[u].pc < p.start[u + 1] && p.acts[s.threads[u].pc].kind == Release && s.threads[u].phase.Steady?
    ensures LockInv(p, l, rows, LockStep(p, l, s, u), m)
  {
    hide LockInv, LocksReady, WellFormedProgram, Bracketed, InOrder, ThreadOk, KeyOk, Front, Advances, LockStep;
    InvSize(p, l, rows, s, m);
    InvOfUnit(p, l, rows, s, m, u);
    var g, s' := s.threads[u].pc, LockStep(p, l, s, u);
    StepAdvances(p, l, s, u, g);
    HolderIsNext(p, s, u);
    FrontIsOk(p, l, rows, s, m, p.acts[g].key, g);
    AdvanceKeepsFronts(p, l, s, s', u, g);
    forall k: Key, f: nat | Front(p, s', k, f) ensures f <= |p.acts| && KeyOk(p, l, rows, s', k, f) {
      FrontIsOk(p, l, rows, s, m, k, f);
      if k == p.acts[g].key { OneFront(p, s, k, f, g); } else { OneFront(p, s, k, f, f); }
      AdvanceKeepsKey(p, l, rows, s, s', u, g, k, f);
    }
    forall v: nat | v < |p.token| ensures ThreadOk(p, l, rows, s', v) {
      InvOfUnit(p, l, rows, s, m, v);
      AdvanceKeepsThread(p, l, rows, s, s', u, g, v);
    }
    InvAfterAdvance(p, l, rows, s, s', m, u, g);
  }

  lemma InvAfterAdvance(p: Program, l: Lists, rows: map<Key, Row>, s: LockState, s': LockState, m: nat, u: nat, g: nat)
    requires WellFormedProgram(p) && LockInv(p, l, rows, s, m) && u < m && g < |p.acts|
    requires Advances(p, l, s, s', u, g) && InOrder(p, s')
    requires forall v: nat | v < |p.token| :: ThreadOk(p, l, rows, s', v)
    requires forall k: Key, f: nat | Front(p, s', k, f) :: KeyOk(p, l, rows, s', k, f)
    ensures LockInv(p, l, rows, s', m)
  {
    hide WellFormedProgram, InOrder, ThreadOk, KeyOk, Front;
  }

  lemma {:induction false} LockStepKeepsInv(p: Program, l: Lists, rows: map<Key, Row>, s: LockState, m: nat, u: nat)
    requires LocksReady(p, l, m) && LockInv(p, l, rows, s, m) && u < m
    ensures LockInv(p, l, rows, LockStep(p, l, s, u), m)
  {
    hide LockInv, LocksReady, WellFormedProgram, Bracketed, InOrder, ThreadOk;
    InvSize(p, l, rows, s, m);
    InvOfUnit(p, l, rows, s, m, u);
    var g := s.threads[u].pc;
    if g < p.start[u + 1] {
      match p.acts[g].kind
      case Acquire =>
        if HolderOf(l, s, p.acts[g].key) == p.token[u] { AcquireKeepsInv(p, l, rows, s, m, u); }
      case Work => HolderKeepsInv(p, l, rows, s, m, u);
      case Release =>
        if s.threads[u].phase.Handing? {
          HolderKeepsInv(p, l, rows, s, m, u);
        } else {
          AdvanceKeepsInv(p, l, rows, s, m, u);
        }
    }
  }

  lemma {:induction false} LockInitialInv(p: Program, l: Lists, rows: map<Key, Row>, m: nat)
    requires LocksReady(p, l, m)
    ensures LockInv(p, l, rows, LockInitial(p, rows), m)
  {
    var s := LockInitial(p, rows);
    forall g: nat | g < |p.acts| ensures !Done(p, s, g) {}
    forall u: nat | u < |p.token| ensures ThreadOk(p, l, rows, s, u) {
      assert NoUnit(p.acts, u, 0, p.start[u]) by {
        forall i: nat | i < p.start[u] && i < |p.acts| ensures p.acts[i].unit != u {}
      }
      LocalQuiet(p, rows, u, 0, p.start[u]);
    }
    forall k: Key, f: nat | Front(p, s, k, f) ensures KeyOk(p, l, rows, s, k, f) {
      InitialKey(p, l, rows, s, k, f);
    }
  }

  lemma {:induction false} InitialKey(p: Program, l: Lists, rows: map<Key, Row>, s: LockState, k: Key, f: nat)
    requires WellFormedProgram(p) && s == LockInitial(p, rows) && Front(p, s, k, f)
    requires forall g: nat | g < |p.acts| :: !Done(p, s, g)
    ensures KeyOk(p, l, rows, s, k, f)
  {
    assert NoActs(p.acts, k, 0, f);
    CountQuiet(p.acts, Release, k, 0, f);
    RowQuiet(p, rows, k, 0, f);
  }

  lemma {:induction false} LockRunKeepsInv(p: Program, l: Lists, rows: map<Key, Row>, m: nat, schedule: seq<nat>)
    requires LocksReady(p, l, m) && forall i | 0 <= i < |schedule| :: schedule[i] < m
    ensures LockInv(p, l, rows, LockRun(p, l, rows, schedule), m)
  {
    if schedule == [] {
      LockInitialInv(p, l, rows, m);
    } else {
      hide LockInv;
      LockRunKeepsInv(p, l, rows, m, schedule[..|schedule| - 1]);
      LockStepKeepsInv(p, l, rows, LockRun(p, l, rows, schedule[..|schedule| - 1]), m, schedule[|schedule| - 1]);
    }
  }

  // ------------------------------------------------------------------ the theorems

  /** Unit u is between taking and releasing the lock of row k. */
  ghost predicate Inside(p: Program, s: LockState, u: nat, k: Key)
    requires |s.threads| == |p.token| && u < |p.token|
  {
    s.threads[u].pc <= |p.acts| && Acquires(p, k, s.threads[u].pc) > Releases(p, k, s.threads[u].pc)
  }

  /** Grant order: whenever an act on a row has happened, so has every act on the row that comes
      before it in transaction order, the earlier units' releases included. */
  lemma {:induction false} ActsInTxnOrder(p: Program, l: Lists, rows: map<Key, Row>, schedule: seq<nat>, g: nat, h: nat)
    requires LocksReady(p, l, |p.token|) && forall i | 0 <= i < |schedule| :: schedule[i] < |p.token|
    requires g < h < |p.acts| && p.acts[g].key == p.acts[h].key
    ensures var s := LockRun(p, l, rows, schedule);
            s.threads[p.acts[h].unit].pc > h ==> s.threads[p.acts[g].unit].pc > g
  {
    LockRunKeepsInv(p, l, rows, |p.token|, schedule);
    var s := LockRun(p, l, rows, schedule);
    assert Done(p, s, h) ==> Done(p, s, g);
  }

  /** A unit inside has passed one of its own acts on the row, and has another one ahead. */
  lemma {:induction false} InsideBetween(p: Program, l: Lists, rows: map<Key, Row>, s: LockState, u: nat, k: Key)
    returns (g: nat, h: nat)
    requires LocksReady(p, l, |p.token|) && LockInv(p, l, rows, s, |p.token|) && u < |p.token| && Inside(p, s, u, k)
    ensures g < h < |p.acts| && p.acts[g].unit == u == p.acts[h].unit && p.acts[g].key == k == p.acts[h].key
    ensures Done(p, s, g) && !Done(p, s, h)
  {
    assert ThreadOk(p, l, rows, s, u);
    var lo, pc, hi := p.start[u], s.threads[u].pc, p.start[u + 1];
    assert Acquires(p, k, lo) == Releases(p, k, lo) && Acquires(p, k, hi) == Releases(p, k, hi);
    CountMonotone(p.acts, Release, k, lo, pc);
    g := LastAcquire(p.acts, k, lo, pc);
    AtUnit(p, u, g);
    h := FindAct(p, k, pc, hi);
    AtUnit(p, u, h);
  }

  lemma {:induction false} FindAct(p: Program, k: Key, lo: nat, hi: nat) returns (h: nat)
    requires lo <= hi <= |p.acts|
    requires Acquires(p, k, lo) > Releases(p, k, lo) && Acquires(p, k, hi) == Releases(p, k, hi)
    ensures lo <= h < hi && p.acts[h].key == k
  {
    if NoActs(p.acts, k, lo, hi) {
      CountQuiet(p.acts, Acquire, k, lo, hi);
      CountQuiet(p.acts, Release, k, lo, hi);
      assert false;
      h := lo;
    } else {
      h :| lo <= h < hi && p.acts[h].key == k;
    }
  }

  /** Mutual exclusion: in every reachable state at most one unit is inside a row's section. */
  lemma {:induction false} MutualExclusion(p: Program, l: Lists, rows: map<Key, Row>, schedule: seq<nat>, u: nat,
                                           v: nat, k: Key)
    requires LocksReady(p, l, |p.token|) && forall i | 0 <= i < |schedule| :: schedule[i] < |p.token|
    requires u < v < |p.token|
    ensures !(Inside(p, LockRun(p, l, rows, schedule), u, k) && Inside(p, LockRun(p, l, rows, schedule), v, k))
  {
    var s := LockRun(p, l, rows, schedule);
    LockRunKeepsInv(p, l, rows, |p.token|, schedule);
    if Inside(p, s, u, k) && Inside(p, s, v, k) {
      var a, b := InsideBetween(p, l, rows, s, u, k);
      var c, d := InsideBetween(p, l, rows, s, v, k);
      if c < b { UnitsInOrder(p, c, b); }
      assert false;
    }
  }

  ghost predicate LockFinished(p: Program, s: LockState)
    requires |s.threads| == |p.token| && |p.start| == |p.token| + 1
  {
    forall u: nat | u < |p.token| :: s.threads[u].pc == p.start[u + 1]
  }

  /** Where everybody is finished the rows and all results are those of the serial run. */
  lemma {:induction false} LockedRunIsSerial(p: Program, l: Lists, rows: map<Key, Row>, s: LockState, k: Key, u: nat)
    requires LocksReady(p, l, |p.token|) && LockInv(p, l, rows, s, |p.token|) && LockFinished(p, s) && u < |p.token|
    ensures s.data.RowOf(k) == SerialData(p, rows, |p.acts|).RowOf(k)
    ensures s.data.LocalOf(u) == SerialData(p, rows, |p.acts|).LocalOf(u)
  {
    forall g: nat | g < |p.acts| ensures Done(p, s, g) {}
    assert Front(p, s, k, |p.acts|);
    assert KeyOk(p, l, rows, s, k, |p.acts|);
    assert ThreadOk(p, l, rows, s, u);
    NoneAfter(p, u);
    LocalQuiet(p, rows, u, p.start[u + 1], |p.acts|);
  }

  lemma {:induction false} NoneAfter(p: Program, u: nat)
    requires WellFormedProgram(p) && u < |p.token|
    ensures NoUnit(p.acts, u, p.start[u + 1], |p.acts|)
  {
    forall i: nat | p.start[u + 1] <= i < |p.acts| ensures p.acts[i].unit != u {}
  }

  // ------------------------------------------------------------------ deadlock freedom

  /** Unit u has acts left and is not held up by its spin. */
  predicate LockMoves(p: Program, l: Lists, s: LockState, u: nat)
    requires |p.start| == |p.token| + 1 && |s.threads| == |p.token| && u < |p.token|
  {
    && s.threads[u].pc < p.start[u + 1] <= |p.acts|
    && (p.acts[s.threads[u].pc].kind == Acquire ==> HolderOf(l, s, p.acts[s.threads[u].pc].key) == p.token[u])
  }

  /** Whatever locks are held, the smallest unfinished unit can take its next lock. */
  lemma {:induction false} SmallestTakesLock(p: Program, l: Lists, rows: map<Key, Row>, s: LockState, m: nat, u: nat)
    requires LocksReady(p, l, m) && LockInv(p, l, rows, s, m) && u < |p.token|
    requires s.threads[u].pc < p.start[u + 1]
    requires forall v: nat | v < u :: s.threads[v].pc == p.start[v + 1]
    ensures LockMoves(p, l, s, u)
  {
    assert ThreadOk(p, l, rows, s, u);
    var g := s.threads[u].pc;
    var k := p.acts[g].key;
    AtUnit(p, u, g);
    assert Front(p, s, k, g) by {
      forall h: nat | h < |p.acts| && p.acts[h].key == k ensures Done(p, s, h) <==> h < g {
        if h < g { UnitsInOrder(p, h, g); }
        assert !Done(p, s, g);
      }
    }
    assert KeyOk(p, l, rows, s, k, g);
    ListNamesUnit(p, l, g);
  }

  function Remaining(p: Program, s: LockState, u: nat): int
    requires |p.start| == |p.token| + 1 && |s.threads| == |p.token| && u < |p.token|
  {
    2 * (p.start[u + 1] - s.threads[u].pc) - (if s.threads[u].phase.Handing? then 1 else 0)
  }
}
