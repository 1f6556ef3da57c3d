/** The requests of the order book as functions: what each does to the book, and the
    callbacks it emits (src/book/order_book.h, `add`, `cancel`, `replace`). */
module Requests {
  import opened Prices
  import opened Orders
  import opened Books
  import opened Matching

  // ---- Finding a resting order ----

  /** First node with this key's price; the length when there is none. */
  function FindKey(side: seq<Entry>, key: ComparablePrice, k: nat): (r: nat)
    requires k <= |side|
    ensures k <= r <= |side|
    decreases |side| - k
  {
    if k == |side| || side[k].key.price == key.price then k else FindKey(side, key, k + 1)
  }

  /** Walk on from there to the order itself, giving up past the key. */
  function FindFrom(side: seq<Entry>, key: ComparablePrice, id: OrderId, k: nat): (r: nat)
    requires k <= |side|
    ensures k <= r <= |side|
    decreases |side| - k
  {
    if k == |side| || side[k].tracker.ptr == id then k
    else if key.Less(side[k].key) then |side|
    else FindFrom(side, key, id, k + 1)
  }

  function FindOnMarket(orders: OrderMap, b: Book, id: OrderId): (k: nat)
    ensures k <= |b.Side(IsBuy(orders, id))|
    ensures k < |b.Side(IsBuy(orders, id))| ==> b.Side(IsBuy(orders, id))[k].tracker.ptr == id
  {
    var side := b.Side(IsBuy(orders, id));
    var key := ComparablePrice(IsBuy(orders, id), PriceOf(orders, id));
    var k := FindFrom(side, key, id, FindKey(side, key, 0));
    FindFromFinds(side, key, id, FindKey(side, key, 0));
    k
  }

  lemma {:induction false} FindFromFinds(side: seq<Entry>, key: ComparablePrice, id: OrderId, k: nat)
    requires k <= |side|
    ensures var r := FindFrom(side, key, id, k); r < |side| ==> side[r].tracker.ptr == id
    decreases |side| - k
  {
    if k < |side| && side[k].tracker.ptr != id && !key.Less(side[k].key) {
      FindFromFinds(side, key, id, k + 1);
    }
  }

  // ---- The requests ----

  /** The book afterwards, the callbacks in order, the result the source returns, and the
      immediate-or-cancel remainders that were dropped. */
  datatype Outcome = Outcome(book: Book, cbs: seq<Callback>, matched: bool, dropped: seq<Tracker>)

  /** Is a stop order held back? Only while the market price is a better deal. */
  predicate Held(orders: OrderMap, id: OrderId, marketPrice: nat) {
    && id in orders && orders[id].stopPrice != 0
    && ComparablePrice(orders[id].isBuy, orders[id].stopPrice).LessPrice(marketPrice)
  }

  function HoldStop(orders: OrderMap, b: Book, t: Tracker): Book
    requires t.ptr in orders
  {
    var o := orders[t.ptr];
    var e := Entry(ComparablePrice(o.isBuy, o.stopPrice), t);
    if o.isBuy then b.(stops := b.stops.(stopBids := Insert(b.stops.stopBids, e)))
    else b.(stops := b.stops.(stopAsks := Insert(b.stops.stopAsks, e)))
  }

  /** Whatever a request leaves pending has been submitted before the book update goes out. */
  function Finish(r: Submitted, cbs: seq<Callback>, matched: bool, dropped: seq<Tracker>): Outcome {
    Outcome(r.book, cbs + r.fills + [BookUpdateCb], matched, dropped + r.dropped)
  }

  function CancelRest(t: Tracker): seq<Callback> {
    if t.ioc && t.openQty != 0 then [CancelCb(t.ptr, 0)] else []
  }

  /** A submission: the accept callback is told what the order filled in its own first match. */
  function AddOutcome(qty: nat, a: Added, r: Submitted): Outcome {
    Finish(r, [AcceptCb(a.inbound.ptr, qty - Min(qty, a.inbound.openQty))] + a.fills + CancelRest(a.inbound), a.matched,
           a.dropped)
  }

  function Add(orders: OrderMap, b: Book, id: OrderId, aon: bool, ioc: bool): Outcome
    requires id in orders
  {
    var o := orders[id];
    var t := Tracker(id, o.qty, aon, ioc);
    if o.qty == 0 then Outcome(b, [RejectCb(id)], false, [])
    else if Held(orders, id, b.stops.marketPrice) then
      Finish(SubmitPending(orders, HoldStop(orders, b, t)), [AcceptCb(id, 0)], false, [])
    else
      var a := AddOrder(orders, b, t, o.price);
      AddOutcome(o.qty, a, SubmitPending(orders, a.book))
  }

  /** The book without its node `k` on one side. */
  function Without(b: Book, buy: bool, k: nat): Book
    requires k < |b.Side(buy)|
  {
    b.WithSides(buy, Erase(b.Side(buy), k), b.Side(!buy), b.stops)
  }

  function Cancel(orders: OrderMap, b: Book, id: OrderId): Outcome {
    var buy := IsBuy(orders, id);
    var k := FindOnMarket(orders, b, id);
    if k == |b.Side(buy)| then Outcome(b, [CancelRejectCb(id)], false, [])
    else Outcome(Without(b, buy, k),
                 [CancelCb(id, b.Side(buy)[k].tracker.openQty), BookUpdateCb], false, [])
  }

  /** A size reduction takes away no more than what is open. */
  function ClipDelta(delta: int, openQty: nat): int {
    if delta < 0 && openQty < -delta then 0 - openQty else delta
  }

  /** A resting order, taken out of the book, changed by `d` and given a price: it is closed
      when nothing is left open, and submitted again otherwise. */
  function ReplaceTaken(orders: OrderMap, rest: Book, t: Tracker, d: int, price: nat): Outcome
    requires t.openQty + d >= 0
  {
    var head := ReplaceCb(t.ptr, t.openQty, d, price);
    if t.openQty + d == 0 then Finish(SubmitPending(orders, rest), [head, CancelCb(t.ptr, 0)], false, [])
    else
      var a := AddOrder(orders, rest, t.(openQty := t.openQty + d), price);
      Finish(SubmitPending(orders, a.book), [head] + a.fills, a.matched, a.dropped)
  }

  function Replace(orders: OrderMap, b: Book, id: OrderId, delta: int, newPrice: nat): Outcome {
    var buy := IsBuy(orders, id);
    var price := if newPrice == 0 then PriceOf(orders, id) else newPrice;
    var k := FindOnMarket(orders, b, id);
    if k == |b.Side(buy)| then Outcome(b, [ReplaceRejectCb(id)], false, [])
    else
      var t := b.Side(buy)[k].tracker;
      ReplaceTaken(orders, Without(b, buy, k), t, ClipDelta(delta, t.openQty), price)
  }

  /** A market price set from outside: released stop orders wait for the next request. */
  function SetMarket(b: Book, price: nat): Book {
    b.(stops := SetMarketPrice(b.stops, price))
  }
}
