/** The accesses of one epoch, in the order in which running the transactions one after the
    other would perform them, and what a correct execution plan says about each of them. */
module Accesses {

  /** One access of a unit of work to one record.  A unit is what one warp executes: a whole
      transaction, or one of the ten pieces of a YCSB transaction. */
  datatype Access<K> = Access(key: K, unit: nat, write: bool)

  /** Where the storage protocol finds the value of an access: the side of the record that was
      current when the epoch began (A), the side written in this epoch (B), or a version slot. */
  datatype Loc = RecordA | RecordB | VersionSlot(slot: nat)

  predicate WritesAt<K(==)>(ops: seq<Access<K>>, k: K, g: int)
    requires 0 <= g < |ops|
  {
    ops[g].write && ops[g].key == k
  }

  /** The last write of k among the first p accesses, or -1. */
  function LastWrite<K(==)>(ops: seq<Access<K>>, k: K, p: nat): (w: int)
    requires p <= |ops|
    ensures -1 <= w < p
    ensures w >= 0 ==> WritesAt(ops, k, w)
    ensures forall j | w < j < p :: !WritesAt(ops, k, j)
  {
    if p == 0 then -1
    else if WritesAt(ops, k, p - 1) then p - 1
    else LastWrite(ops, k, p - 1)
  }

  ghost predicate NoLaterWrite<K>(ops: seq<Access<K>>, g: nat)
    requires g < |ops|
  {
    forall h | g < h < |ops| :: !WritesAt(ops, ops[g].key, h)
  }

  /** A read is sent to the place of the last earlier write of its record, and to the record's
      A side when there is none. */
  ghost predicate ReadsFollowWrites<K>(ops: seq<Access<K>>, loc: seq<Loc>)
    requires |loc| == |ops|
  {
    forall g | 0 <= g < |ops| && !ops[g].write ::
      var w := LastWrite(ops, ops[g].key, g);
      loc[g] == if w < 0 then RecordA else loc[w]
  }

  /** A record's last write of the epoch, and no other, goes to the record's B side. */
  ghost predicate LastWritesGoToB<K>(ops: seq<Access<K>>, loc: seq<Loc>)
    requires |loc| == |ops|
  {
    forall g | 0 <= g < |ops| && ops[g].write ::
      loc[g] != RecordA && (loc[g] == RecordB <==> NoLaterWrite(ops, g))
  }

  /** Writes of one table never share a version slot. */
  ghost predicate SlotsDistinct<K>(ops: seq<Access<K>>, loc: seq<Loc>, table: K -> nat)
    requires |loc| == |ops|
  {
    forall g, h | 0 <= g < h < |ops| && ops[g].write && ops[h].write && table(ops[g].key) == table(ops[h].key) ::
      loc[g].VersionSlot? ==> loc[g] != loc[h]
  }

  ghost predicate PlanOk<K>(ops: seq<Access<K>>, loc: seq<Loc>, table: K -> nat) {
    && |loc| == |ops|
    && ReadsFollowWrites(ops, loc)
    && LastWritesGoToB(ops, loc)
    && SlotsDistinct(ops, loc, table)
  }
}
