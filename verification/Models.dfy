/** Domain values shared by every layer: sides, order identities, orders and requests. */
module Models {

  datatype Option<+T> = None | Some(value: T)

  datatype Result<+T, +E> = Ok(value: T) | Err(error: E)

  const MAX_INT64: int := 0x7FFF_FFFF_FFFF_FFFF
  const MIN_INT64: int := -0x8000_0000_0000_0000

  predicate IsInt64(x: int) {
    MIN_INT64 <= x <= MAX_INT64
  }

  type Int64 = x: int | IsInt64(x)

  /** Two's-complement wrap-around of a 64-bit addition or negation. */
  function Wrap64(x: int): (w: Int64)
    ensures IsInt64(x) ==> w == x
    ensures (w - x) % 0x1_0000_0000_0000_0000 == 0
  {
    (x - MIN_INT64) % 0x1_0000_0000_0000_0000 + MIN_INT64
  }

  /** Wrapping after every addition gives the same value as wrapping once at the end. */
  lemma WrapAbsorbs(x: int, y: int)
    ensures Wrap64(Wrap64(x) + y) == Wrap64(x + y)
  {
  }

  datatype Side = Bid | Ask {
    function Opposite(): Side {
      if this == Bid then Ask else Bid
    }
  }

  datatype OrderType = Limit | Market

  /**
   * An order identity. Hash stands for the SHA-256 digest of the creating tuple, taken to be
   * injective; Raw is any other text a request may carry.
   */
  datatype OrderID =
    | Hash(ticker: string, userID: string, orderType: OrderType, side: Side, price: int, nonce: nat)
    | Raw(text: string)
  {
    predicate IsEmpty() {
      this == Raw("")
    }
  }

  datatype Time = ZeroTime | At(nanos: int)

  /** The value of an order at one moment; the book's mutable orders are snapshots of this kind. */
  datatype Order = Order(
    id: OrderID,
    ticker: string,
    userID: string,
    orderType: OrderType,
    side: Side,
    price: int,
    amount: int,
    timestamp: Time,
    nonce: nat)

  datatype CreateOrderRequest = CreateOrderRequest(
    commandID: string,
    ticker: string,
    userID: string,
    orderType: OrderType,
    side: Side,
    price: Int64,
    amount: Int64,
    nonce: nat)

  datatype EditOrderRequest = EditOrderRequest(
    commandID: string,
    ticker: string,
    orderID: OrderID,
    price: Int64,
    amount: Option<Int64>)

  datatype CancelOrderRequest = CancelOrderRequest(commandID: string, ticker: string, orderID: OrderID)

  function GenerateOrderID(req: CreateOrderRequest): OrderID {
    Hash(req.ticker, req.userID, req.orderType, req.side, req.price, req.nonce)
  }

  function CreateOrderAt(req: CreateOrderRequest, recordedAt: Time): Order {
    Order(GenerateOrderID(req), req.ticker, req.userID, req.orderType, req.side,
          req.price, req.amount, recordedAt, req.nonce)
  }
}
