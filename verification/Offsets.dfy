/** How a submission places what its threads write: every thread's count is known, a prefix sum
    turns the counts into offsets, and every thread writes from its offset on. */
module Offsets {

  /** What the first n threads write, one after the other. */
  function Concat<T>(parts: seq<seq<T>>, n: nat): seq<T>
    requires n <= |parts|
  {
    if n == 0 then [] else Concat(parts, n - 1) + parts[n - 1]
  }

  /** Where thread t's range begins. */
  function Start<T>(parts: seq<seq<T>>, t: nat): nat
    requires t <= |parts|
  {
    if t == 0 then 0 else Start(parts, t - 1) + |parts[t - 1]|
  }

  lemma {:induction false} StartIsLength<T>(parts: seq<seq<T>>, n: nat)
    requires n <= |parts|
    ensures |Concat(parts, n)| == Start(parts, n)
    decreases n
  {
    if n > 0 { StartIsLength(parts, n - 1); }
  }

  lemma {:induction false} StartMonotone<T>(parts: seq<seq<T>>, s: nat, t: nat)
    requires s <= t <= |parts|
    ensures Start(parts, s) <= Start(parts, t)
    decreases t - s
  {
    if s < t { StartMonotone(parts, s, t - 1); }
  }

  /** The ranges tile the buffer: they start at 0, each ends where the next begins, and every place
      below the total is in exactly one of them. */
  lemma {:induction false} RangesTile<T>(parts: seq<seq<T>>, q: nat, n: nat) returns (t: nat)
    requires n <= |parts| && q < Start(parts, n)
    ensures Start(parts, 0) == 0 && Start(parts, |parts|) == |Concat(parts, |parts|)|
    ensures t < n && Start(parts, t) <= q < Start(parts, t + 1) == Start(parts, t) + |parts[t]|
    ensures forall s: nat | s < |parts| && Start(parts, s) <= q < Start(parts, s + 1) :: s == t
    decreases n
  {
    StartIsLength(parts, |parts|);
    if q < Start(parts, n - 1) {
      t := RangesTile(parts, q, n - 1);
    } else {
      t := n - 1;
      hide Start;
      forall s: nat | s < |parts| && Start(parts, s) <= q < Start(parts, s + 1) ensures s == t {
        if s < t { StartMonotone(parts, s + 1, t); }
        if t < s { StartMonotone(parts, t + 1, s); }
      }
    }
  }

  /** Thread t's range holds what it writes. */
  ghost predicate Written<T>(parts: seq<seq<T>>, t: nat, dest: seq<T>)
    requires t < |parts|
  {
    && Start(parts, t + 1) == Start(parts, t) + |parts[t]| <= |dest|
    && dest[Start(parts, t)..Start(parts, t + 1)] == parts[t]
  }

  /** A thread has written its range and nothing else. */
  ghost predicate WritesRange<T>(part: seq<T>, at: nat, was: seq<T>, now: seq<T>) {
    && at + |part| <= |was| == |now|
    && forall i | 0 <= i < |now| :: now[i] == if at <= i < at + |part| then part[i - at] else was[i]
  }

  lemma WritesNothing<T>(at: nat, was: seq<T>)
    requires at <= |was|
    ensures WritesRange([], at, was, was)
  {}

  lemma WritesOne<T>(x: T, at: nat, was: seq<T>)
    requires at < |was|
    ensures WritesRange([x], at, was, was[at := x])
  {}

  /** What is written next follows. */
  lemma WritesBoth<T>(a: seq<T>, b: seq<T>, at: nat, was: seq<T>, mid: seq<T>, now: seq<T>)
    requires WritesRange(a, at, was, mid) && WritesRange(b, at + |a|, mid, now)
    ensures WritesRange(a + b, at, was, now)
  {
    forall i | 0 <= i < |now| ensures now[i] == if at <= i < at + |a + b| then (a + b)[i - at] else was[i] {
      assert mid[i] == if at <= i < at + |a| then a[i - at] else was[i];
    }
  }

  lemma {:induction false} OthersKept<T>(parts: seq<seq<T>>, t: nat, tid: nat, was: seq<T>, now: seq<T>)
    requires t < |parts| && tid < |parts| && t != tid && Written(parts, t, was)
    requires WritesRange(parts[tid], Start(parts, tid), was, now)
    ensures Written(parts, t, now)
  {
    var lo, hi := Start(parts, t), Start(parts, t + 1);
    RangesApart(parts, t, tid);
    hide Start;
    assert |now| == |was|;
    forall i | lo <= i < hi ensures now[i] == was[i] {}
    assert now[lo..hi] == was[lo..hi];
  }

  lemma RangesApart<T>(parts: seq<seq<T>>, t: nat, tid: nat)
    requires t < |parts| && tid < |parts| && t != tid
    ensures Start(parts, t + 1) <= Start(parts, tid) || Start(parts, tid) + |parts[tid]| <= Start(parts, t)
  {
    if t < tid { StartMonotone(parts, t + 1, tid); } else { StartMonotone(parts, tid + 1, t); }
  }

  /** One more thread is done. */
  lemma {:induction false} OneMoreWritten<T>(parts: seq<seq<T>>, done: set<nat>, tid: nat, was: seq<T>, now: seq<T>)
    requires tid < |parts| && tid !in done && forall t | t in done :: t < |parts| && Written(parts, t, was)
    requires WritesRange(parts[tid], Start(parts, tid), was, now)
    ensures forall t | t in done + {tid} :: t < |parts| && Written(parts, t, now)
  {
    forall t | t in done ensures Written(parts, t, now) { OthersKept(parts, t, tid, was, now); }
  }

  /** When all are done the buffer holds everything in thread order. */
  lemma {:induction false} AllWritten<T>(parts: seq<seq<T>>, dest: seq<T>, n: nat)
    requires n <= |parts| && forall t: nat | t < n :: Written(parts, t, dest)
    ensures Start(parts, n) <= |dest| && dest[..Start(parts, n)] == Concat(parts, n)
    decreases n
  {
    if n > 0 {
      AllWritten(parts, dest, n - 1);
      assert Written(parts, n - 1, dest);
      var a, b := Start(parts, n - 1), Start(parts, n);
      assert dest[..b] == dest[..a] + dest[a..b];
    }
  }

  lemma {:induction false} DoneBounded(done: set<nat>, n: nat)
    requires forall t | t in done :: t < n
    ensures |done| <= n
  {
    if n > 0 {
      DoneBounded(done - {n - 1}, n - 1);
    } else {
      assert done == {};
    }
  }

  /** The bytes that are allocated for n 32-bit words, in whole lines of 128. */
  function AllocatedBytes(n: nat): nat { (4 * n + 127) / 128 * 128 }

  /** That leaves room for the word behind the last one unless the words fill their lines. */
  lemma LastOffsetFits(n: nat)
    ensures 4 * (n + 1) <= AllocatedBytes(n) <==> n % 32 != 0
  {
    var lines, rest := n / 32, n % 32;
    WholeLines(lines, rest);
    assert n == 32 * lines + rest;
  }

  lemma WholeLines(lines: nat, rest: nat)
    requires rest < 32
    ensures AllocatedBytes(32 * lines + rest) == 128 * (if rest == 0 then lines else lines + 1)
  {
    var q := if rest == 0 then lines else lines + 1;
    assert 128 * q <= 4 * (32 * lines + rest) + 127 < 128 * (q + 1);
  }

  lemma StartsAtZero<T>(parts: seq<seq<T>>)
    ensures Start(parts, 0) == 0
  {}

  lemma StartNext<T>(parts: seq<seq<T>>, t: nat)
    requires t < |parts|
    ensures Start(parts, t + 1) == Start(parts, t) + |parts[t]|
  {}

  /** The inclusive sum of the counts, stored one place further on. */
  method InclusiveSum<T>(ghost parts: seq<seq<T>>, numOps: array<nat>, offsets: array<nat>, n: nat)
    requires n == |parts| && n <= numOps.Length && n < offsets.Length && numOps != offsets && offsets[0] == 0
    requires forall t: nat | t < n :: numOps[t] == |parts[t]|
    modifies offsets
    ensures forall t: nat | t <= n :: offsets[t] == Start(parts, t)
  {
    hide Start;
    var sum := 0;
    StartsAtZero(parts);
    for t := 0 to n
      invariant sum == Start(parts, t)
      invariant forall s: nat | s <= t :: offsets[s] == Start(parts, s)
    {
      StartNext(parts, t);
      sum := sum + numOps[t];
      offsets[t + 1] := sum;
    }
  }

  /** One thread writes its part from its offset on. */
  method WritePart<T>(part: seq<T>, offset: nat, dest: array<T>)
    requires offset + |part| <= dest.Length
    modifies dest
    ensures WritesRange(part, offset, old(dest[..]), dest[..])
  {
    for i := 0 to |part|
      invariant forall q | 0 <= q < dest.Length ::
                  dest[q] == if offset <= q < offset + i then part[q - offset] else old(dest[q])
    {
      dest[offset + i] := part[i];
    }
  }

  /** The threads write their parts, in any order. */
  method WriteParts<T>(parts: seq<seq<T>>, offsets: array<nat>, dest: array<T>) returns (total: nat)
    requires |parts| < offsets.Length && forall t: nat | t <= |parts| :: offsets[t] == Start(parts, t)
    requires |Concat(parts, |parts|)| <= dest.Length
    modifies dest
    ensures total == |Concat(parts, |parts|)| && dest[..total] == Concat(parts, |parts|)
  {
    StartIsLength(parts, |parts|);
    total := offsets[|parts|];
    var offset := offsets[..];
    var done: set<nat> := {};
    hide Start, Concat, Written;
    while exists t: nat :: t < |parts| && t !in done
      invariant forall t | t in done :: t < |parts| && Written(parts, t, dest[..])
      decreases |parts| - |done|
    {
      var tid: nat :| tid < |parts| && tid !in done;
      RangeFits(parts, tid);
      ghost var was := dest[..];
      WritePart(parts[tid], offset[tid], dest);
      OneMoreWritten(parts, done, tid, was, dest[..]);
      DoneBounded(done + {tid}, |parts|);
      done := done + {tid};
    }
    AllWritten(parts, dest[..], |parts|);
    assert dest[..total] == dest[..][..total];
  }

  lemma RangeFits<T>(parts: seq<seq<T>>, t: nat)
    requires t < |parts|
    ensures Start(parts, t) + |parts[t]| <= Start(parts, |parts|)
  {
    StartMonotone(parts, t + 1, |parts|);
  }
}
