/** What the lanes of the executing warp write.  Every lane has one register: a read loads its word of
    the row, lanes of single fields change theirs, and a write stores the register. */
module TpccLanes {
  import opened Execution
  import opened Machine
  import opened Stock
  import opened TpccEpoch
  import opened TpccSubmitter
  import opened TpccTables

  /** The parameters of a transaction that are no row ids. */
  datatype Values = Values(nextOrderId: nat, quantities: nat -> nat, paymentAmount: nat, carrierId: nat, deliveryD: nat)

  // Word offsets of the fields that are changed.
  const W_YTD: nat := 1
  const D_YTD: nat := 0
  const D_NEXT_O_ID: nat := 2
  const C_BALANCE: nat := 0
  const C_YTD_PAYMENT: nat := 1
  const C_PAYMENT_CNT: nat := 2
  const C_DELIVERY_CNT: nat := 3
  const O_CARRIER_ID: nat := 1
  const OL_I_ID: nat := 0
  const OL_DELIVERY_D: nat := 1
  const OL_AMOUNT: nat := 2
  const OL_SUPPLY_W_ID: nat := 3
  const OL_QUANTITY: nat := 4
  const S_QUANTITY: nat := 0

  function WordIn(row: Row, i: nat): nat { if i < |row| then row[i] else 0 }

  /** Lane i's register after the last read. */
  function Register(seen: seq<Row>, i: nat): nat {
    if seen == [] then 0 else WordIn(seen[|seen| - 1], i)
  }

  function AddWord(a: nat, b: nat): nat { (a + b) % WORD }
  function SubWord(a: nat, b: nat): nat { (a + WORD - b % WORD) % WORD }

  /** The stock quantity that is written, and stays in the register. */
  function NewQuantity(result: nat, order: nat): nat { EpicDeduct(result % WORD, order % WORD) }

  /** The item of a NewOrder that a plan word belongs to. */
  function ItemOf(word: nat): nat { if word < 6 then 0 else (word - 6) / 4 }

  /** What lane i has added up over the last n rows of those read: only the lane of the amount adds. */
  function Accumulated(seen: seq<Row>, n: nat, i: nat): nat
    decreases n
  {
    if n == 0 || seen == [] then 0
    else
      var before := Accumulated(seen[..|seen| - 1], n - 1, i);
      if i == OL_AMOUNT then AddWord(before, WordIn(seen[|seen| - 1], i)) else before
  }

  /** The order lines that a Delivery has read for the customer whose row is written last. */
  function LinesOf(entries: seq<Delivered>, word: nat): nat {
    if 40 <= word < 40 + |entries| then |entries[word - 40].orderLines| else 0
  }

  /** What lane i writes in access x of transaction t.  In a Delivery the balance gets what lane
      adder has added up. */
  function LaneWrite(t: Params, v: Values, x: Touch, seen: seq<Row>, i: nat, adder: nat): Word {
    var result := Register(seen, i);
    match t
    case NewOrder(warehouse, _, _, _, _, items) =>
      var n := ItemOf(x.word);
      var stocked := if i == S_QUANTITY then NewQuantity(result, v.quantities(n)) else result;
      if x.table == DISTRICT then
        if i == D_NEXT_O_ID then v.nextOrderId else result
      else if x.table == STOCK then stocked
      else if x.table == ORDER_LINE then
        if i == OL_I_ID then (if n < |items| then items[n].item else 0)
        else if i == OL_AMOUNT || i == OL_QUANTITY then v.quantities(n)
        else if i == OL_SUPPLY_W_ID then warehouse
        else stocked
      else result
    case Payment(_, _, _) =>
      if x.table == WAREHOUSE then
        if i == W_YTD then AddWord(result, v.paymentAmount) else result
      else if x.table == DISTRICT then
        if i == D_YTD then AddWord(result, v.paymentAmount) else result
      else if i == C_BALANCE then SubWord(result, v.paymentAmount)
      else if i == C_YTD_PAYMENT then AddWord(result, v.paymentAmount)
      else if i == C_PAYMENT_CNT then AddWord(result, 1)
      else result
    case Delivery(entries) =>
      if x.table == ORDER then
        if i == O_CARRIER_ID then v.carrierId else result
      else if x.table == ORDER_LINE then
        if i == OL_DELIVERY_D then v.deliveryD else result
      else if i == C_BALANCE then
        if seen == [] then result
        else AddWord(result, Accumulated(seen[..|seen| - 1], LinesOf(entries, x.word), adder))
      else if i == C_DELIVERY_CNT then AddWord(result, 1)
      else result
    case OrderStatus(_, _, _) => result
    case StockLevel(_) => result
  }

  /** What lane i writes in access g of the batch. */
  function LaneAt(txns: seq<Params>, values: nat -> Values, g: nat, seen: seq<Row>, i: nat, adder: nat): Word {
    var all := All(txns, |txns|);
    if g < |all| && all[g].txn < |txns| then
      LaneWrite(txns[all[g].txn], values(all[g].txn), all[g].touch, seen, i, adder)
    else 0
  }

  /** The lanes of the whole batch, the balance getting what lane adder has added up. */
  function LaneAdding(txns: seq<Params>, values: nat -> Values, adder: nat): (nat, seq<Row>, nat) -> Word {
    (g: nat, seen: seq<Row>, i: nat) => LaneAt(txns, values, g, seen, i, adder)
  }

  /** The lanes as they are: the result of the shuffle is dropped, and every lane has its own amount. */
  function TpccLane(txns: seq<Params>, values: nat -> Values): (nat, seq<Row>, nat) -> Word {
    LaneAdding(txns, values, C_BALANCE)
  }

  /** The lanes as they are meant: the lane of the balance has got the amount by the shuffle. */
  function ShuffledLane(txns: seq<Params>, values: nat -> Values): (nat, seq<Row>, nat) -> Word {
    LaneAdding(txns, values, OL_AMOUNT)
  }

  /** Access p of transaction u is access p after the transaction's first. */
  lemma {:induction false} AccessOf(txns: seq<Params>, u: nat, p: nat)
    requires u < |txns| && p < |Program(txns[u])|
    ensures |All(txns, u)| + p < |All(txns, |txns|)|
    ensures All(txns, |txns|)[|All(txns, u)| + p] == Placed(u, Program(txns[u])[p])
  {
    hide All, Program;
    AllPrefix(txns, u + 1, |txns|);
    AllOfOneMore(txns, u);
    InPrefix(All(txns, u), Place(Program(txns[u]), u), All(txns, |txns|), p);
  }

  lemma AllOfOneMore(txns: seq<Params>, u: nat)
    requires u < |txns|
    ensures All(txns, u + 1) == All(txns, u) + Place(Program(txns[u]), u)
  {
    hide Program;
  }

  lemma InPrefix(a: seq<Placed>, b: seq<Placed>, all: seq<Placed>, p: nat)
    requires a + b <= all && p < |b|
    ensures |a| + p < |all| && all[|a| + p] == b[p]
  {
    assert (a + b)[|a| + p] == b[p];
  }

  lemma {:induction false} LaneOf(txns: seq<Params>, values: nat -> Values, adder: nat, u: nat, p: nat,
                                  seen: seq<Row>, i: nat)
    requires u < |txns| && p < |Program(txns[u])|
    ensures LaneAdding(txns, values, adder)(|All(txns, u)| + p, seen, i) ==
            LaneWrite(txns[u], values(u), Program(txns[u])[p], seen, i, adder)
  {
    hide All, Program, LaneWrite, Place;
    AccessOf(txns, u, p);
  }
}
