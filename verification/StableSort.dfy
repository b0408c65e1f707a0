/** A stable sort on the record bits alone, which is what both planners run on the submitted
    accesses.  An element's final position is the number of smaller keys plus its rank among
    the equal keys submitted before it. */
module StableSort {

  function CountLess(keys: seq<nat>, r: nat, n: nat): (c: nat)
    requires n <= |keys|
    ensures c <= n
  {
    if n == 0 then 0 else CountLess(keys, r, n - 1) + (if keys[n - 1] < r then 1 else 0)
  }

  /** How many of the first n keys equal r. */
  function Rank(keys: seq<nat>, r: nat, n: nat): (c: nat)
    requires n <= |keys|
    ensures c <= n
  {
    if n == 0 then 0 else Rank(keys, r, n - 1) + (if keys[n - 1] == r then 1 else 0)
  }

  function Pos(keys: seq<nat>, j: nat): (p: nat)
    requires j < |keys|
    ensures p < |keys|
  {
    RankMonotone(keys, keys[j], j, |keys|);
    CountsFit(keys, keys[j], |keys|);
    CountLess(keys, keys[j], |keys|) + Rank(keys, keys[j], j)
  }

  lemma {:induction false} RankMonotone(keys: seq<nat>, r: nat, m: nat, n: nat)
    requires m <= n <= |keys|
    ensures Rank(keys, r, m) <= Rank(keys, r, n)
    ensures m < n && keys[m] == r ==> Rank(keys, r, m) < Rank(keys, r, n)
    decreases n - m
  {
    if m < n {
      RankMonotone(keys, r, m + 1, n);
    }
  }

  /** Keys below r' include those below r and those equal to r, for r < r'. */
  lemma {:induction false} CountLessSplits(keys: seq<nat>, r: nat, r': nat, n: nat)
    requires r < r' && n <= |keys|
    ensures CountLess(keys, r, n) + Rank(keys, r, n) <= CountLess(keys, r', n)
  {
    if n > 0 {
      CountLessSplits(keys, r, r', n - 1);
    }
  }

  lemma {:induction false} CountsFit(keys: seq<nat>, r: nat, n: nat)
    requires n <= |keys|
    ensures CountLess(keys, r, n) + Rank(keys, r, n) <= n
  {
    if n > 0 {
      CountsFit(keys, r, n - 1);
    }
  }

  ghost predicate Before(keys: seq<nat>, i: nat, j: nat)
    requires i < |keys| && j < |keys|
  {
    keys[i] < keys[j] || (keys[i] == keys[j] && i < j)
  }

  /** The order of the positions is the order of (key, submission index). */
  lemma PosOrder(keys: seq<nat>, i: nat, j: nat)
    requires i < |keys| && j < |keys|
    ensures Pos(keys, i) < Pos(keys, j) <==> Before(keys, i, j)
    ensures Pos(keys, i) == Pos(keys, j) <==> i == j
  {
    if Before(keys, i, j) {
      PosIncreases(keys, i, j);
    } else if Before(keys, j, i) {
      PosIncreases(keys, j, i);
    }
  }

  lemma PosIncreases(keys: seq<nat>, i: nat, j: nat)
    requires i < |keys| && j < |keys| && Before(keys, i, j)
    ensures Pos(keys, i) < Pos(keys, j)
  {
    RankMonotone(keys, keys[i], i, |keys|);
    if keys[i] < keys[j] {
      CountLessSplits(keys, keys[i], keys[j], |keys|);
    } else {
      RankMonotone(keys, keys[i], i, j);
    }
  }

  ghost function Upto(n: nat): (s: set<nat>)
    ensures forall i: nat :: i in s <==> i < n
    ensures |s| == n
  {
    if n == 0 then {} else Upto(n - 1) + {n - 1}
  }

  ghost function Taken(keys: seq<nat>, n: nat): (s: set<nat>)
    requires n <= |keys|
  {
    set j: nat | j < n :: Pos(keys, j)
  }

  lemma {:induction false} TakenSize(keys: seq<nat>, n: nat)
    requires n <= |keys|
    ensures |Taken(keys, n)| == n
  {
    hide Pos, Before;
    if n > 0 {
      TakenSize(keys, n - 1);
      forall j: nat | j < n - 1 ensures Pos(keys, j) != Pos(keys, n - 1) { PosOrder(keys, j, n - 1); }
      assert Taken(keys, n) == Taken(keys, n - 1) + {Pos(keys, n - 1)};
    }
  }

  /** Every position receives an element, so the sort permutes its input. */
  lemma PosOnto(keys: seq<nat>, i: nat) returns (j: nat)
    requires i < |keys|
    ensures j < |keys| && Pos(keys, j) == i
  {
    var all, taken := Upto(|keys|), Taken(keys, |keys|);
    TakenSize(keys, |keys|);
    forall p | p in taken ensures p in all {
      var k: nat :| k < |keys| && p == Pos(keys, k);
    }
    assert |all - taken| == 0;
    assert i in all && i !in all - taken;
    j :| j < |keys| && i == Pos(keys, j);
  }

  /** sorted is the stable sort of items by their keys. */
  ghost predicate IsSort<T>(keys: seq<nat>, items: seq<T>, sorted: seq<T>) {
    && |keys| == |items| == |sorted|
    && forall j: nat | j < |items| :: sorted[Pos(keys, j)] == items[j]
  }

  method Position(keys: seq<nat>, j: nat) returns (p: nat)
    requires j < |keys|
    ensures p == Pos(keys, j)
  {
    p := 0;
    for i := 0 to j
      invariant p == Rank(keys, keys[j], i)
    {
      if keys[i] == keys[j] { p := p + 1; }
    }
    for i := 0 to |keys|
      invariant p == CountLess(keys, keys[j], i) + Rank(keys, keys[j], j)
    {
      if keys[i] < keys[j] { p := p + 1; }
    }
  }

  /** Sorts the first n entries of the submission buffer, whose keys are given, into the output
      buffer. */
  method SortKeys<T>(keys: seq<nat>, input: array<T>, output: array<T>)
    requires |keys| <= input.Length && |keys| <= output.Length && input != output
    modifies output
    ensures IsSort(keys, input[..|keys|], output[..|keys|])
  {
    for j := 0 to |keys|
      invariant forall k: nat | k < j :: output[Pos(keys, k)] == input[k]
    {
      var p := Position(keys, j);
      forall k: nat | k < j ensures Pos(keys, k) != p {
        PosOrder(keys, k, j);
      }
      output[p] := input[j];
    }
  }
}
