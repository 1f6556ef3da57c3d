/** Orders, their trackers inside the book, and the callbacks the book emits
    (src/simple/simple_order.cpp, src/book/order_tracker.h, src/book/callback.h).
    An order is identified by its address; the application orders live in a map from
    address to value. */
module Orders {
  import opened Prices

  type OrderId = nat

  datatype OrderState = New | Accepted | Complete | Cancelled

  /** The application's order object. */
  datatype Order = Order(isBuy: bool, price: nat, qty: nat, stopPrice: nat, filled: nat, filledCost: nat,
                         state: OrderState) {
    predicate IsLimit() {
      price > 0
    }

    function OpenQty(): nat {
      if filled < qty then qty - filled else 0
    }

    function Fill(q: nat, cost: nat): Order {
      var o := this.(filled := filled + q, filledCost := filledCost + cost);
      if o.OpenQty() == 0 then o.(state := Complete) else o
    }

    function Accept(): Order {
      if state == New then this.(state := Accepted) else this
    }

    function Cancel(): Order {
      if state != Complete then this.(state := Cancelled) else this
    }

    function Replace(delta: int, newPrice: nat): Order {
      if state == Accepted && qty + delta >= 0 then this.(qty := qty + delta, price := newPrice) else this
    }
  }

  type OrderMap = map<OrderId, Order>

  function PriceOf(env: OrderMap, id: OrderId): nat {
    if id in env then env[id].price else MARKET_ORDER_PRICE
  }

  predicate IsBuy(env: OrderMap, id: OrderId) {
    id in env && env[id].isBuy
  }

  /** What the book remembers about an order. */
  datatype Tracker = Tracker(ptr: OrderId, openQty: nat, aon: bool, ioc: bool) {
    function Reduce(q: nat): Tracker {
      this.(openQty := if q <= openQty then openQty - q else 0)
    }
  }

  /** A node of one of the price-sorted multimaps. */
  datatype Entry = Entry(key: ComparablePrice, tracker: Tracker)

  datatype Callback =
    | AcceptCb(order: OrderId, quantity: nat)
    | RejectCb(order: OrderId)
    | FillCb(order: OrderId, matched: OrderId, quantity: nat, price: nat, inboundFilled: bool, matchedFilled: bool)
    | CancelCb(order: OrderId, quantity: nat)
    | CancelRejectCb(order: OrderId)
    | ReplaceCb(order: OrderId, openQty: nat, delta: int, newPrice: nat)
    | ReplaceRejectCb(order: OrderId)
    | BookUpdateCb
}
