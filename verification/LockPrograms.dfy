/** From the transactions' lock disciplines and the planner's lists to the facts that the lock
    protocol needs. */
module LockPrograms {
  import opened Execution
  import opened Locks
  import Plan = GaccoPlanner
  import Sort = StableSort

  // ------------------------------------------------------------------ lock discipline

  function Update(held: set<Key>, a: Act): set<Key> {
    match a.kind
    case Acquire => held + {a.key}
    case Work => held
    case Release => held - {a.key}
  }

  predicate Allowed(held: set<Key>, a: Act) {
    if a.kind == Acquire then a.key !in held else a.key in held
  }

  /** The locks held after the first g acts. */
  function HeldAfter(acts: seq<Act>, g: nat): set<Key>
    requires g <= |acts|
  {
    if g == 0 then {} else Update(HeldAfter(acts, g - 1), acts[g - 1])
  }

  /** Locks are taken when not held, used and given back when held, and all given back at the
      end. */
  ghost predicate Disciplined(acts: seq<Act>) {
    && (forall g: nat | g < |acts| :: Allowed(HeldAfter(acts, g), acts[g]))
    && HeldAfter(acts, |acts|) == {}
  }

  lemma {:induction false} HeldConcat(a: seq<Act>, b: seq<Act>, i: nat)
    requires i <= |a|
    ensures HeldAfter(a + b, i) == HeldAfter(a, i)
  {
    if i > 0 { HeldConcat(a, b, i - 1); }
  }

  lemma {:induction false} HeldSecond(a: seq<Act>, b: seq<Act>, i: nat)
    requires i <= |b| && HeldAfter(a, |a|) == {}
    ensures HeldAfter(a + b, |a| + i) == HeldAfter(b, i)
  {
    if i == 0 { HeldConcat(a, b, |a|); } else { HeldSecond(a, b, i - 1); }
  }

  lemma {:induction false} DisciplinedConcat(a: seq<Act>, b: seq<Act>)
    requires Disciplined(a) && Disciplined(b)
    ensures Disciplined(a + b)
  {
    hide HeldAfter, Allowed;
    forall g: nat | g < |a + b| ensures Allowed(HeldAfter(a + b, g), (a + b)[g]) {
      if g < |a| {
        HeldConcat(a, b, g);
      } else {
        HeldSecond(a, b, g - |a|);
        assert (a + b)[g] == b[g - |a|];
      }
    }
    HeldSecond(a, b, |b|);
  }

  /** A disciplined sequence has taken each lock once more than it gave it back if it holds it,
      and as often if not. */
  lemma {:induction false} HeldIsCounted(acts: seq<Act>, k: Key, g: nat)
    requires Disciplined(acts) && g <= |acts|
    ensures Count(acts, Acquire, k, g) == Count(acts, Release, k, g) + (if k in HeldAfter(acts, g) then 1 else 0)
    decreases g
  {
    if g > 0 {
      HeldIsCounted(acts, k, g - 1);
      assert Allowed(HeldAfter(acts, g - 1), acts[g - 1]);
    }
  }

  // ------------------------------------------------------------------ units to a program

  function Flatten(units: seq<seq<Act>>, n: nat): seq<Act>
    requires n <= |units|
  {
    if n == 0 then [] else Flatten(units, n - 1) + units[n - 1]
  }

  lemma {:induction false} FlattenPrefix(units: seq<seq<Act>>, m: nat, n: nat)
    requires m <= n <= |units|
    ensures Flatten(units, m) <= Flatten(units, n)
    decreases n - m
  {
    if m < n { FlattenPrefix(units, m, n - 1); }
  }

  function ProgramOf(units: seq<seq<Act>>, token: seq<nat>, work: (nat, Local, Row) -> (Row, Local)): Program {
    Program(Flatten(units, |units|), seq(|units| + 1, u requires 0 <= u <= |units| => |Flatten(units, u)|), token, work)
  }

  ghost predicate UnitsOk(units: seq<seq<Act>>) {
    forall u: nat | u < |units| :: Disciplined(units[u]) && OwnActs(units[u], u)
  }

  ghost predicate OwnActs(acts: seq<Act>, u: nat) {
    forall a | a in acts :: a.unit == u
  }

  lemma {:induction false} FlattenOwner(units: seq<seq<Act>>, n: nat, g: nat)
    requires UnitsOk(units) && n <= |units| && g < |Flatten(units, n)|
    ensures var u := Flatten(units, n)[g].unit;
            u < n && |Flatten(units, u)| <= g < |Flatten(units, u + 1)|
    decreases n
  {
    hide Disciplined;
    if g < |Flatten(units, n - 1)| {
      FlattenOwner(units, n - 1, g);
    } else {
      assert Flatten(units, n)[g] in units[n - 1] && OwnActs(units[n - 1], n - 1);
    }
  }

  lemma {:induction false} FlattenDisciplined(units: seq<seq<Act>>, n: nat)
    requires UnitsOk(units) && n <= |units|
    ensures Disciplined(Flatten(units, n))
    decreases n
  {
    hide Disciplined, OwnActs;
    if n > 0 {
      FlattenDisciplined(units, n - 1);
      assert Disciplined(units[n - 1]);
      hide UnitsOk;
      DisciplinedConcat(Flatten(units, n - 1), units[n - 1]);
    } else {
      hide *;
      FlattenNone(units);
      NothingIsDisciplined();
    }
  }

  lemma NothingIsDisciplined()
    ensures Disciplined([])
  {}

  lemma {:induction false} ProgramIsWellFormed(units: seq<seq<Act>>, token: seq<nat>,
                                               work: (nat, Local, Row) -> (Row, Local))
    requires UnitsOk(units) && |token| == |units|
    ensures WellFormedProgram(ProgramOf(units, token, work))
  {
    hide UnitsOk, Flatten;
    var p := ProgramOf(units, token, work);
    assert Flatten(units, 0) == [] by { FlattenNone(units); }
    forall u, v | 0 <= u <= v < |p.start| ensures p.start[u] <= p.start[v] {
      FlattenPrefix(units, u, v);
    }
    forall g | 0 <= g < |p.acts| ensures var u := p.acts[g].unit; u < |p.token| && p.start[u] <= g < p.start[u + 1] {
      FlattenOwner(units, |units|, g);
    }
  }

  lemma FlattenNone(units: seq<seq<Act>>)
    ensures Flatten(units, 0) == []
  {}

  lemma {:induction false} ProgramIsBracketed(units: seq<seq<Act>>, token: seq<nat>,
                                              work: (nat, Local, Row) -> (Row, Local))
    requires UnitsOk(units) && |token| == |units|
    ensures WellFormedProgram(ProgramOf(units, token, work)) && Bracketed(ProgramOf(units, token, work))
  {
    hide Flatten, UnitsOk, WellFormedProgram;
    ProgramIsWellFormed(units, token, work);
    var p := ProgramOf(units, token, work);
    FlattenDisciplined(units, |units|);
    forall g: nat | g < |p.acts| ensures BracketedAt(p, g) {
      HeldIsCounted(p.acts, p.acts[g].key, g);
    }
    forall u: nat, k: Key | u < |p.start| && p.start[u] <= |p.acts|
           ensures Acquires(p, k, p.start[u]) == Releases(p, k, p.start[u]) {
      BalancedAtStart(units, u, k);
    }
  }

  lemma {:induction false} BalancedAtStart(units: seq<seq<Act>>, u: nat, k: Key)
    requires UnitsOk(units) && u <= |units|
    ensures var acts, g := Flatten(units, |units|), |Flatten(units, u)|;
            g <= |acts| && Count(acts, Acquire, k, g) == Count(acts, Release, k, g)
  {
    var acts, mine := Flatten(units, |units|), Flatten(units, u);
    FlattenPrefix(units, u, |units|);
    FlattenDisciplined(units, u);
    HeldIsCounted(mine, k, |mine|);
    assert acts == mine + acts[|mine|..];
    CountPrefix(mine, acts[|mine|..], Acquire, k, |mine|);
    CountPrefix(mine, acts[|mine|..], Release, k, |mine|);
  }

  lemma {:induction false} CountPrefix(a: seq<Act>, b: seq<Act>, kind: Kind, k: Key, g: nat)
    requires g <= |a|
    ensures Count(a + b, kind, k, g) == Count(a, kind, k, g)
  {
    if g > 0 { CountPrefix(a, b, kind, k, g - 1); }
  }

  // ------------------------------------------------------------------ acquires and lists

  predicate Named(acts: seq<Act>, token: seq<nat>) {
    forall a | a in acts :: a.unit < |token|
  }

  /** The names, in order, under which the first g acts take locks of table t. */
  function Names(acts: seq<Act>, token: seq<nat>, t: nat, g: nat): (ops: seq<Plan.LockOp>)
    requires g <= |acts| && Named(acts, token)
  {
    if g == 0 then []
    else
      var a := acts[g - 1];
      Names(acts, token, t, g - 1)
      + (if a.kind == Acquire && a.key.table == t then [Plan.LockOp(a.key.row, token[a.unit])] else [])
  }

  lemma {:induction false} NamesPrefix(acts: seq<Act>, token: seq<nat>, t: nat, g: nat, h: nat)
    requires g <= h <= |acts| && Named(acts, token)
    ensures Names(acts, token, t, g) <= Names(acts, token, t, h)
    decreases h - g
  {
    if g < h { NamesPrefix(acts, token, t, g, h - 1); }
  }

  lemma {:induction false} NamesConcat(a: seq<Act>, b: seq<Act>, token: seq<nat>, t: nat, g: nat)
    requires g <= |b| && Named(a + b, token)
    ensures Named(a, token) && Named(b, token)
    ensures Names(a + b, token, t, |a| + g) == Names(a, token, t, |a|) + Names(b, token, t, g)
    decreases g
  {
    forall x | x in a ensures x in a + b {}
    forall x | x in b ensures x in a + b {}
    if g > 0 { NamesConcat(a, b, token, t, g - 1); } else { NamesFirst(a, b, token, t, |a|); }
  }

  lemma {:induction false} NamesFirst(a: seq<Act>, b: seq<Act>, token: seq<nat>, t: nat, g: nat)
    requires g <= |a| && Named(a + b, token) && Named(a, token)
    ensures Names(a + b, token, t, g) == Names(a, token, t, g)
  {
    if g > 0 { NamesFirst(a, b, token, t, g - 1); }
  }

  ghost predicate NamesMatch(acts: seq<Act>, token: seq<nat>, t: nat, ops: seq<Plan.LockOp>) {
    Named(acts, token) && Names(acts, token, t, |acts|) == ops
  }

  lemma {:induction false} NamesMatchConcat(a: seq<Act>, b: seq<Act>, token: seq<nat>, t: nat, ops: seq<Plan.LockOp>,
                                            more: seq<Plan.LockOp>)
    requires NamesMatch(a, token, t, ops) && NamesMatch(b, token, t, more)
    ensures NamesMatch(a + b, token, t, ops + more)
  {
    assert Named(a + b, token);
    hide Named;
    NamesConcat(a, b, token, t, |b|);
  }

  /** A row's list index of the next name is the number of times the row's lock was taken. */
  lemma {:induction false} NamesRank(acts: seq<Act>, token: seq<nat>, k: Key, g: nat)
    requires g <= |acts| && Named(acts, token)
    ensures var ops := Names(acts, token, k.table, g);
            Plan.ListIndex(ops, k.row, |ops|) == Count(acts, Acquire, k, g)
    decreases g
  {
    if g > 0 {
      NamesRank(acts, token, k, g - 1);
      var was, now := Names(acts, token, k.table, g - 1), Names(acts, token, k.table, g);
      IndexPrefix(was, now, k.row, |was|);
      assert acts[g - 1] in acts;
    }
  }

  lemma {:induction false} IndexPrefix(a: seq<Plan.LockOp>, b: seq<Plan.LockOp>, row: nat, j: nat)
    requires a <= b && j <= |a|
    ensures Plan.ListIndex(a, row, j) == Plan.ListIndex(b, row, j)
  {
    if j > 0 {
      IndexPrefix(a, b, row, j - 1);
      assert Plan.KeysOf(a)[j - 1] == Plan.KeysOf(b)[j - 1];
    }
  }

  /** The table's lists, as the executor finds them in memory. */
  ghost predicate ListsOf(l: Lists, t: nat, ops: seq<Plan.LockOp>) {
    forall j: nat | j < |ops| ::
      && l.base(Key(t, ops[j].record)) == Plan.ListBase(ops, ops[j].record)
      && l.access(t, Plan.ListBase(ops, ops[j].record) + Plan.ListIndex(ops, ops[j].record, j)) == ops[j].txn
  }

  /** The name of an acquire follows the names before it. */
  lemma {:induction false} NameAtAcquire(acts: seq<Act>, token: seq<nat>, t: nat, g: nat)
    requires Named(acts, token) && g < |acts| && acts[g].kind == Acquire && acts[g].key.table == t
    ensures acts[g].unit < |token|
    ensures var all, was := Names(acts, token, t, |acts|), Names(acts, token, t, g);
            was <= all && |was| < |all| && all[|was|] == Plan.LockOp(acts[g].key.row, token[acts[g].unit])
  {
    assert acts[g] in acts;
    NamesPrefix(acts, token, t, g, |acts|);
    NamesPrefix(acts, token, t, g + 1, |acts|);
    var was, next := Names(acts, token, t, g), Names(acts, token, t, g + 1);
    assert next == was + [Plan.LockOp(acts[g].key.row, token[acts[g].unit])];
    hide Names, Named;
    assert next[|was|] == Plan.LockOp(acts[g].key.row, token[acts[g].unit]);
  }

  lemma {:induction false} AcquireIsListed(p: Program, l: Lists, g: nat)
    requires WellFormedProgram(p) && g < |p.acts| && p.acts[g].kind == Acquire
    requires Named(p.acts, p.token)
    requires ListsOf(l, p.acts[g].key.table, Names(p.acts, p.token, p.acts[g].key.table, |p.acts|))
    ensures ListedAt(p, l, g)
  {
    hide Named, WellFormedProgram, Count, Names, Plan.ListIndex, Plan.ListBase;
    var k := p.acts[g].key;
    var all, was := Names(p.acts, p.token, k.table, |p.acts|), Names(p.acts, p.token, k.table, g);
    NameAtAcquire(p.acts, p.token, k.table, g);
    NamesRank(p.acts, p.token, k, g);
    IndexPrefix(was, all, k.row, |was|);
  }

  /** If each table's planner was given exactly the names under which the units will take its
      locks, in that order, the lists are right. */
  lemma {:induction false} NamesMakeLists(p: Program, l: Lists)
    requires WellFormedProgram(p) && Named(p.acts, p.token)
    requires forall t: nat :: ListsOf(l, t, Names(p.acts, p.token, t, |p.acts|))
    ensures ListsOk(p, l)
  {
    forall g: nat | g < |p.acts| && p.acts[g].kind == Acquire ensures ListedAt(p, l, g) {
      AcquireIsListed(p, l, g);
    }
  }
}
