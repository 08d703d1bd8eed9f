/** Wire types of the market-data feed and the fixed-width arithmetic they are stored in. */
module Market {

  const TWO_32: int := 0x1_0000_0000
  const TWO_31: int := 0x8000_0000

  type U32 = x: int | 0 <= x < 0x1_0000_0000
  type I32 = x: int | -0x8000_0000 <= x < 0x8000_0000

  /** Unsigned 32-bit arithmetic keeps the residue. */
  function WrapU32(x: int): U32 { x % TWO_32 }

  /** Conversion to a signed 32-bit value: the residue, read in two's complement. */
  function WrapI32(x: int): I32 { (x + TWO_31) % TWO_32 - TWO_31 }

  lemma WrapU32Keeps(x: int)
    requires 0 <= x < TWO_32
    ensures WrapU32(x) == x
  {
  }

  lemma WrapI32Keeps(x: int)
    requires -TWO_31 <= x < TWO_31
    ensures WrapI32(x) == x
  {
  }

  function Abs(x: int): nat { if x < 0 then -x else x }

  function Min(a: int, b: int): int { if a <= b then a else b }

  type OrderId = nat

  /** The thirteen traded symbols; slot 0 of every table is unused. */
  type Symbol = s: int | 1 <= s <= 13 witness 1

  /** A side byte as it arrives. Only new orders are checked for the third case. */
  datatype Side = Buy | Sell | Unknown(code: nat)

  /** What a quantity does to a position; every side that is not a buy takes away. */
  function Signed(side: Side, qty: int): int { if side == Buy then qty else -qty }

  datatype NewOrder = NewOrder(seqNum: U32, id: OrderId, symbol: Symbol, side: Side, quantity: U32, price: I32)
  datatype DeleteOrder = DeleteOrder(seqNum: U32, id: OrderId)
  datatype ModifyOrder = ModifyOrder(seqNum: U32, id: OrderId, side: Side, quantity: U32, price: I32)
  datatype Trade = Trade(seqNum: U32, id: OrderId, quantity: U32, price: I32)

  /** The four message types that change a book. */
  datatype BookMsg =
    | New(newOrder: NewOrder)
    | Delete(deleteOrder: DeleteOrder)
    | Modify(modifyOrder: ModifyOrder)
    | Executed(trade: Trade)
  {
    function Id(): OrderId
    {
      match this
      case New(m) => m.id
      case Delete(m) => m.id
      case Modify(m) => m.id
      case Executed(m) => m.id
    }
  }
}
