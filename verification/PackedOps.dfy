/** The 64-bit packed access: record id, transaction id, read/write bit and the word offset of
    the access's location inside the transaction's execution plan. */
module PackedOps {

  const RECORD_MASK: bv64 := 0xFFFF_FFFF_0000_0000
  const TXN_MASK: bv64 := 0x0000_0000_FFFF_F000
  const RW_MASK: bv64 := 0x0000_0000_0000_0800
  const OFFSET_MASK: bv64 := 0x0000_0000_0000_07FF

  function CreateOp(record: bv64, txn: bv64, rw: bv64, offset: bv64): bv64 {
    (record << 32) | (txn << 12) | (rw << 11) | offset
  }

  function GetRecordId(op: bv64): bv64 { (op & RECORD_MASK) >> 32 }
  function GetTxnId(op: bv64): bv64 { (op & TXN_MASK) >> 12 }
  function GetRw(op: bv64): bv64 { (op & RW_MASK) >> 11 }
  function GetOffset(op: bv64): bv64 { op & OFFSET_MASK }

  predicate FieldsFit(record: bv64, txn: bv64, rw: bv64, offset: bv64) {
    record < 0x1_0000_0000 && txn < 0x10_0000 && rw < 2 && offset < 0x800
  }

  predicate RoundTrips(record: bv64, txn: bv64, rw: bv64, offset: bv64) {
    var op := CreateOp(record, txn, rw, offset);
    GetRecordId(op) == record && GetTxnId(op) == txn && GetRw(op) == rw && GetOffset(op) == offset
  }

  /** Packing loses nothing exactly when every field fits its bits: nothing masks the fields, so
      an oversized one spills into its neighbour. */
  lemma RoundTripIffFieldsFit(record: bv64, txn: bv64, rw: bv64, offset: bv64)
    ensures RoundTrips(record, txn, rw, offset) <==> FieldsFit(record, txn, rw, offset)
  {}
}
