/** The TPC-C tables, and the part of a NewOrder that both engines share. */
module TpccTables {
  const WAREHOUSE: nat := 0
  const DISTRICT: nat := 1
  const CUSTOMER: nat := 2
  const ORDER: nat := 3
  const NEW_ORDER: nat := 4
  const ORDER_LINE: nat := 5
  const ITEM: nat := 6
  const STOCK: nat := 7

  /** One item of a NewOrder: the rows of its order line, its stock and the item itself. */
  datatype Item = Item(orderLine: nat, stock: nat, item: nat)
}
