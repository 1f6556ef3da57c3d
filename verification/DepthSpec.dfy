/** The depth of a book as what it is meant to be: per side, a map from price to the number
    of orders and their total quantity, updated from the callback stream alone
    (src/book/depth_order_book.h). `None` stands for an exception, or for a lookup of a
    price that has no level, or of the price that marks a blank slot. */
module DepthSpec {
  import opened Options
  import opened Orders

  datatype Level = Level(count: nat, qty: nat)

  datatype DepthSide = DepthSide(levels: map<nat, Level>, ignoreQty: nat) {
    /** The level at a price; an absent level holds nothing. */
    function At(price: nat): Level {
      if price in levels then levels[price] else Level(0, 0)
    }

    ghost predicate WellFormed() {
      forall p :: p in levels ==> p != 0 && levels[p].count > 0
    }

    function AddOrder(price: nat, qty: nat): DepthSide {
      this.(levels := levels[price := Level(At(price).count + 1, At(price).qty + qty)])
    }

    function CloseOrder(price: nat, qty: nat): Option<DepthSide> {
      if price !in levels || levels[price].count == 0 then None
      else if levels[price].count == 1 then Some(this.(levels := levels - {price}))
      else if levels[price].qty < qty then None
      else Some(this.(levels := levels[price := Level(levels[price].count - 1, levels[price].qty - qty)]))
    }

    function ChangeQty(price: nat, delta: int): Option<DepthSide> {
      if delta == 0 then Some(this)
      else if price !in levels || levels[price].qty + delta < 0 then None
      else Some(this.(levels := levels[price := Level(levels[price].count, levels[price].qty + delta)]))
    }

    function IgnoreFill(qty: nat): Option<DepthSide> {
      if ignoreQty != 0 then None else Some(this.(ignoreQty := qty))
    }

    function FillOrder(price: nat, qty: nat, filled: bool): Option<DepthSide> {
      if ignoreQty != 0 then (if qty <= ignoreQty then Some(this.(ignoreQty := ignoreQty - qty)) else None)
      else if filled then CloseOrder(price, qty)
      else ChangeQty(price, 0 - qty)
    }

    function ReplaceOrder(price: nat, newPrice: nat, qty: nat, newQty: nat): Option<DepthSide> {
      if price == newPrice then ChangeQty(price, newQty - qty)
      else if newPrice == 0 then None
      else AddOrder(newPrice, newQty).CloseOrder(price, qty)
    }
  }

  datatype AbsDepth = AbsDepth(bid: DepthSide, ask: DepthSide) {
    function Side(buy: bool): DepthSide {
      if buy then bid else ask
    }

    function With(buy: bool, s: DepthSide): AbsDepth {
      if buy then this.(bid := s) else this.(ask := s)
    }

    function WithOption(buy: bool, s: Option<DepthSide>): Option<AbsDepth> {
      match s
      case None => None
      case Some(value) => Some(With(buy, value))
    }
  }

  /** One end of a fill. */
  function FillEnd(d: AbsDepth, orders: OrderMap, id: OrderId, qty: nat, filled: bool): Option<AbsDepth> {
    if PriceOf(orders, id) == 0 then Some(d)
    else d.WithOption(IsBuy(orders, id), d.Side(IsBuy(orders, id)).FillOrder(PriceOf(orders, id), qty, filled))
  }

  /** What the depth book does with one callback: the matched end of a fill first. */
  function OnCallback(d: AbsDepth, orders: OrderMap, cb: Callback): Option<AbsDepth> {
    match cb
    case AcceptCb(id, quantity) =>
      if id !in orders || !orders[id].IsLimit() then Some(d)
      else
        var o := orders[id];
        if quantity == o.qty then d.WithOption(o.isBuy, d.Side(o.isBuy).IgnoreFill(quantity))
        else Some(d.With(o.isBuy, d.Side(o.isBuy).AddOrder(o.price, o.qty)))
    case FillCb(id, matched, quantity, _, inboundFilled, matchedFilled) =>
      (match FillEnd(d, orders, matched, quantity, matchedFilled)
       case None => None
       case Some(d') => FillEnd(d', orders, id, quantity, inboundFilled))
    case CancelCb(id, quantity) =>
      if id !in orders || !orders[id].IsLimit() then Some(d)
      else d.WithOption(orders[id].isBuy, d.Side(orders[id].isBuy).CloseOrder(orders[id].price, quantity))
    case ReplaceCb(id, _, delta, newPrice) =>
      if id !in orders || orders[id].qty + delta < 0 then None
      else
        var o := orders[id];
        d.WithOption(o.isBuy, d.Side(o.isBuy).ReplaceOrder(o.price, newPrice, o.qty, o.qty + delta))
    case _ => Some(d)
  }

  /** One application order told of a fill. */
  function FillOne(orders: OrderMap, id: OrderId, qty: nat, price: nat): OrderMap {
    if id in orders then orders[id := orders[id].Fill(qty, qty * price)] else orders
  }

  /** What the simple order book then does to the application orders. */
  function ApplyCallback(orders: OrderMap, cb: Callback): OrderMap {
    match cb
    case AcceptCb(id, _) => if id in orders then orders[id := orders[id].Accept()] else orders
    case FillCb(id, matched, quantity, price, _, _) => FillOne(FillOne(orders, matched, quantity, price), id, quantity,
                                                               price)
    case CancelCb(id, _) => if id in orders then orders[id := orders[id].Cancel()] else orders
    case ReplaceCb(id, _, delta, newPrice) => if id in orders then orders[id := orders[id].Replace(delta, newPrice)]
        else orders
    case _ => orders
  }

  /** The application orders after a whole list of callbacks. */
  function ApplyAll(orders: OrderMap, cbs: seq<Callback>): OrderMap {
    if cbs == [] then orders else ApplyAll(ApplyCallback(orders, cbs[0]), cbs[1..])
  }

  /** The depth after a whole list of callbacks, each read against the orders as the
      callbacks before it left them. */
  function FoldDepth(d: AbsDepth, orders: OrderMap, cbs: seq<Callback>): Option<AbsDepth>
    decreases |cbs|
  {
    if cbs == [] then Some(d)
    else match OnCallback(d, orders, cbs[0])
      case None => None
      case Some(d') => FoldDepth(d', ApplyCallback(orders, cbs[0]), cbs[1..])
  }
}
