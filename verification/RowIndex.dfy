/** How new orders, new-order entries and order lines get their rows: the keys of a batch are
    compacted, paired with the next unused rows and inserted where absent. */
module RowIndex {
  import opened TpccGenerator

  /** The valid entries, in order. */
  function Valid<K>(keys: seq<Option<K>>): seq<K> {
    if keys == [] then []
    else Valid(keys[..|keys| - 1]) + (if keys[|keys| - 1].Some? then [keys[|keys| - 1].value] else [])
  }

  lemma {:induction false} ValidHasAll<K>(keys: seq<Option<K>>, k: K)
    ensures k in Valid(keys) <==> Some(k) in keys
    ensures |Valid(keys)| <= |keys|
  {
    if keys != [] {
      ValidHasAll(keys[..|keys| - 1], k);
      assert keys == keys[..|keys| - 1] + [keys[|keys| - 1]];
    }
  }

  /** Different keys have different rows. */
  ghost predicate Injective<K(!new)>(rows: map<K, nat>) {
    forall k, k' | k in rows && k' in rows && k != k' :: rows[k] != rows[k']
  }

  ghost predicate Below<K(!new)>(rows: map<K, nat>, n: nat) {
    forall k | k in rows :: rows[k] < n
  }

  /** Nothing that was in the index has moved. */
  ghost predicate Extends<K(!new)>(was: map<K, nat>, now: map<K, nat>) {
    forall k | k in was :: k in now && now[k] == was[k]
  }

  /** New keys have rows from the given one on. */
  ghost predicate NewFrom<K(!new)>(was: map<K, nat>, now: map<K, nat>, first: nat) {
    forall k | k in now && k !in was :: first <= now[k]
  }

  /** A new key has the row that it was paired with. */
  ghost predicate Paired<K(!new)>(was: map<K, nat>, now: map<K, nat>, keys: seq<K>, left: set<nat>, first: nat) {
    forall k | k in now && k !in was ::
      first <= now[k] < first + |keys| && now[k] - first !in left && keys[now[k] - first] == k
  }

  /** The keys that are not left have been inserted, the new ones as paired. */
  ghost predicate Inserted<K(!new)>(was: map<K, nat>, now: map<K, nat>, keys: seq<K>, left: set<nat>, first: nat) {
    && Extends(was, now) && Paired(was, now, keys, left, first)
    && forall i: nat | i < |keys| && i !in left :: keys[i] in now
  }

  lemma NoneInserted<K(!new)>(was: map<K, nat>, keys: seq<K>, left: set<nat>, first: nat)
    requires forall i: nat | i < |keys| :: i in left
    ensures Inserted(was, was, keys, left, first)
  {}

  lemma OneMoreInserted<K(!new)>(was: map<K, nat>, now: map<K, nat>, keys: seq<K>, left: set<nat>, first: nat, tid: nat)
    requires Inserted(was, now, keys, left, first) && tid < |keys| && tid in left
    ensures Inserted(was, if keys[tid] in now then now else now[keys[tid] := first + tid], keys, left - {tid}, first)
  {}

  lemma PairedIsInjective<K(!new)>(was: map<K, nat>, now: map<K, nat>, keys: seq<K>, first: nat)
    requires Injective(was) && Below(was, first) && Extends(was, now) && Paired(was, now, keys, {}, first)
    ensures Injective(now) && Below(now, first + |keys|) && NewFrom(was, now, first)
  {}

  lemma {:induction false} InsertedKeys<K(!new)>(was: map<K, nat>, now: map<K, nat>, keys: seq<K>, first: nat, k: K)
    requires Inserted(was, now, keys, {}, first)
    ensures k in now <==> k in was || k in keys
  {
    if k in now && k !in was { assert keys[now[k] - first] == k; }
  }

  /** When all keys have been inserted, they have rows of their own. */
  lemma {:induction false} InsertedIsInjective<K(!new)>(was: map<K, nat>, now: map<K, nat>, keys: seq<K>, first: nat)
    requires Injective(was) && Below(was, first) && Inserted(was, now, keys, {}, first)
    ensures Injective(now) && Below(now, first + |keys|) && NewFrom(was, now, first) && Extends(was, now)
    ensures Paired(was, now, keys, {}, first) && forall k :: k in now <==> k in was || k in keys
  {
    forall k ensures k in now <==> k in was || k in keys { InsertedKeys(was, now, keys, first, k); }
    hide Paired, Extends, Injective, Below, NewFrom;
    PairedIsInjective(was, now, keys, first);
  }

  ghost predicate AllDiffer<K>(keys: seq<K>) {
    forall i: nat, j: nat | i < j < |keys| :: keys[i] != keys[j]
  }

  class TableIndex<K(==,!new)> {
    var rows: map<K, nat>
    const freeRows: array<nat>
    var freeStart: nat
    const numLoaded: nat
    const insert: array<Option<K>>
    const validInsert: array<Option<K>>

    ghost predicate Ok()
      reads this, freeRows
    {
      && insert != validInsert && insert.Length == validInsert.Length && freeStart <= freeRows.Length
      && (forall i: nat | i < freeRows.Length :: freeRows[i] == numLoaded + i)
      && Injective(rows) && Below(rows, numLoaded + freeStart)
    }

    /** Loads the initial keys into rows 0, 1, 2, ... and lists the rows after them as free. */
    constructor (loaded: seq<K>, tableSize: nat, batchSize: nat)
      requires AllDiffer(loaded)
      ensures fresh(insert) && fresh(validInsert) && insert.Length == batchSize
      ensures Ok() && fresh(freeRows) && freeRows.Length == tableSize && freeStart == 0 && numLoaded == |loaded|
      ensures forall k :: k in rows <==> k in loaded
      ensures forall i: nat | i < |loaded| :: loaded[i] in rows && rows[loaded[i]] == i
    {
      numLoaded := |loaded|;
      freeRows := new nat[tableSize](i requires 0 <= i => |loaded| + i);
      freeStart := 0;
      rows := map[];
      insert, validInsert := new Option<K>[batchSize], new Option<K>[batchSize];
      new;
      for i := 0 to |loaded|
        invariant freeRows.Length == tableSize && fresh(freeRows) && freeStart == 0 && numLoaded == |loaded|
        invariant insert != validInsert && fresh(insert) && fresh(validInsert)
        invariant insert.Length == validInsert.Length == batchSize
        invariant forall j: nat | j < tableSize :: freeRows[j] == numLoaded + j
        invariant forall k | k in rows :: exists j: nat :: j < i && k == loaded[j] && rows[k] == j
        invariant forall j: nat | j < i :: loaded[j] in rows && rows[loaded[j]] == j
      {
        rows := rows[loaded[i] := i];
      }
    }

    /** The stream compaction of the batch. */
    method SelectValid(n: nat) returns (numInserts: nat)
      requires n <= insert.Length == validInsert.Length && insert != validInsert
      modifies validInsert
      ensures numInserts == |Valid(insert[..n])| <= n
      ensures forall i: nat | i < numInserts :: validInsert[i] == Some(Valid(insert[..n])[i])
    {
      numInserts := 0;
      for i := 0 to n
        invariant numInserts == |Valid(insert[..i])| <= i
        invariant forall j: nat | j < numInserts :: validInsert[j] == Some(Valid(insert[..i])[j])
      {
        assert insert[..i + 1][..i] == insert[..i];
        if insert[i].Some? {
          validInsert[numInserts] := insert[i];
          numInserts := numInserts + 1;
        }
      }
    }

    /** The threads insert the pairs in any order, each if its key is not there yet. */
    method InsertPairs(keys: seq<K>)
      requires freeStart + |keys| <= freeRows.Length && forall i: nat | i < freeRows.Length ::
               freeRows[i] == numLoaded + i
      modifies this`rows
      ensures Inserted(old(rows), rows, keys, {}, numLoaded + freeStart)
    {
      hide Inserted;
      ghost var was := rows;
      var left := Range(0, |keys|);
      NoneInserted(was, keys, left, numLoaded + freeStart);
      while left != {}
        invariant left <= Range(0, |keys|)
        invariant Inserted(was, rows, keys, left, numLoaded + freeStart)
        decreases |left|
      {
        var tid :| tid in left;
        OneMoreInserted(was, rows, keys, left, numLoaded + freeStart, tid);
        if keys[tid] !in rows {
          rows := rows[keys[tid] := freeRows[freeStart + tid]];
        }
        left := left - {tid};
      }
    }

    /** Pairs the keys with the next free rows.  Every key is found afterwards, under a row of its
        own. */
    method Insert(keys: seq<K>)
      requires Ok() && freeStart + |keys| <= freeRows.Length
      modifies this`rows, this`freeStart
      ensures Ok() && freeStart == old(freeStart) + |keys| && Extends(old(rows), rows)
      ensures forall k :: k in rows <==> k in old(rows) || k in keys
      ensures NewFrom(old(rows), rows, numLoaded + old(freeStart))
      ensures Paired(old(rows), rows, keys, {}, numLoaded + old(freeStart))
    {
      hide Inserted, Injective, Below, NewFrom, Paired, Extends;
      InsertPairs(keys);
      InsertedIsInjective(old(rows), rows, keys, numLoaded + freeStart);
      freeStart := freeStart + |keys|;
    }

    /** The keys that the compacted buffer holds. */
    method ValidKeys(n: nat) returns (valid: seq<K>)
      requires n <= insert.Length == validInsert.Length && insert != validInsert
      modifies validInsert
      ensures valid == Valid(insert[..n]) && |valid| <= n
    {
      hide Valid;
      var numInserts := SelectValid(n);
      valid := seq(numInserts, i requires 0 <= i < numInserts reads validInsert
                                 requires numInserts <= validInsert.Length && validInsert[i].Some? =>
                                 validInsert[i].value);
      assert forall i | 0 <= i < numInserts :: valid[i] == Valid(insert[..n])[i];
    }

    /** The rows of one epoch's batch, whose keys are among the first n entries of the insert
        buffer. */
    method IndexBatch(n: nat)
      requires Ok() && n <= insert.Length
      requires freeStart + |Valid(insert[..n])| <= freeRows.Length
      modifies this`rows, this`freeStart, validInsert
      ensures Ok() && freeStart == old(freeStart) + |Valid(insert[..n])| && Extends(old(rows), rows)
      ensures old(freeStart) <= freeStart <= old(freeStart) + n
      ensures forall k :: k in rows <==> k in old(rows) || Some(k) in insert[..n]
      ensures NewFrom(old(rows), rows, numLoaded + old(freeStart))
      ensures Paired(old(rows), rows, Valid(insert[..n]), {}, numLoaded + old(freeStart))
    {
      ghost var keys, was := Valid(insert[..n]), rows;
      var valid := ValidKeys(n);
      hide Injective, Below, NewFrom, Paired, Extends;
      Insert(valid);
      forall k ensures k in keys <==> Some(k) in insert[..n] {
        ValidHasAll(insert[..n], k);
      }
    }
  }
}
