/** The facts the request methods of the order book rest on. */
module BookRequests {
  import opened Prices
  import opened Orders
  import opened Matching
  import opened Accounting
  import opened BookRuns
  import opened Cascade
  import opened DepthSpec
  import opened Requests
  import opened EngineSteps
  import opened System
  import opened RequestRuns
  import opened RequestInvariants

  lemma RejectedOutcome(s: Sys, id: OrderId, order: Order, aon: bool, ioc: bool)
    requires order.qty == 0
    ensures Requests.Add(s.orders[id := order], s.book, id, aon, ioc) == Outcome(s.book, [RejectCb(id)], false, [])
  {
  }

  /** A new order may be submitted, and tells what it has filled. */
  lemma FreshOrder(s: Sys, id: OrderId, order: Order, t: Tracker)
    requires Fresh(s, id, order, t)
    ensures t == Tracker(id, order.qty, t.aon, t.ioc) && order.qty > 0
    ensures var v := Seen(s.orders[id := order], s.book, [t]);
            var a := AddOrder(v.env, s.book, t, PriceOf(v.denv, t.ptr));
            && Submittable(v, s.book, t) && QueueOk(v, a.book, [])
            && a.inbound == t.(openQty := a.inbound.openQty) && a.inbound.openQty <= t.openQty
  {
    hide Matching.AddOrder;
    var v := Seen(s.orders[id := order], s.book, [t]);
    NewOrderComing(s, id, order, t);
    AddedIsQueue(v, s.book, t);
    AddedInbound(v, s.book, t);
  }

  lemma HeldIsQueue(s: Sys, id: OrderId, order: Order, t: Tracker, b: Book)
    requires Fresh(s, id, order, t) && b == HoldStop(s.orders[id := order], s.book, t)
    ensures QueueOk(Seen(s.orders[id := order], s.book, [t]), b, [])
  {
    HeldStopInBook(s, id, order, t, b);
    PlacedIsQueue(Seen(s.orders[id := order], s.book, [t]), s.orders[id := order.Accept()], b, s.retired);
  }

  lemma HeldOutcome(s: Sys, id: OrderId, order: Order, t: Tracker, r: Submitted)
    requires order.qty > 0 && t == Tracker(id, order.qty, t.aon, t.ioc)
    requires var orders := s.orders[id := order];
             Held(orders, id, s.book.stops.marketPrice) && r == SubmitPending(orders, HoldStop(orders, s.book, t))
    ensures var out := Requests.Add(s.orders[id := order], s.book, id, t.aon, t.ioc);
            out.book == r.book && out.cbs == [AcceptCb(id, 0)] + r.fills + [BookUpdateCb] && !out.matched
  {
    hide Matching.SubmitPending;
  }

  /** The accept callback is patched once the first match is over. */
  lemma SubmittedOutcome(s: Sys, id: OrderId, order: Order, t: Tracker, a: Added, r: Submitted, cbs: seq<Callback>)
    requires order.qty > 0 && t == Tracker(id, order.qty, t.aon, t.ioc)
    requires var orders := s.orders[id := order];
             !Held(orders, id, s.book.stops.marketPrice) && a == AddOrder(orders, s.book, t, order.price) &&
                 r == SubmitPending(orders, a.book)
    requires a.inbound == t.(openQty := a.inbound.openQty) && a.inbound.openQty <= order.qty
    requires var accepted := ([AcceptCb(id, 0)] + a.fills)[0 := AcceptCb(id, order.qty - a.inbound.openQty)];
             cbs == if a.inbound.ioc && a.inbound.openQty != 0 then accepted + [CancelCb(id, 0)] else accepted
    ensures var out := Requests.Add(s.orders[id := order], s.book, id, t.aon, t.ioc);
            out.book == r.book && out.cbs == cbs + r.fills + [BookUpdateCb] && out.matched == a.matched
  {
    hide Matching.AddOrder, Matching.SubmitPending, CancelRest, AddOutcome;
    SubmittedIs(s.orders[id := order], s.book, id, t, a, r);
    AcceptPatched(order.qty, a, r, id, cbs);
  }

  lemma SubmittedIs(orders: OrderMap, b: Book, id: OrderId, t: Tracker, a: Added, r: Submitted)
    requires id in orders && orders[id].qty > 0 && t == Tracker(id, orders[id].qty, t.aon, t.ioc)
    requires !Held(orders, id, b.stops.marketPrice) && a == AddOrder(orders, b, t, orders[id].price)
    requires r == SubmitPending(orders, a.book)
    ensures Requests.Add(orders, b, id, t.aon, t.ioc) == AddOutcome(orders[id].qty, a, r)
  {
    hide Matching.AddOrder, Matching.SubmitPending, Held, AddOutcome;
  }

  lemma AcceptPatched(qty: nat, a: Added, r: Submitted, id: OrderId, cbs: seq<Callback>)
    requires a.inbound.ptr == id && a.inbound.openQty <= qty
    requires var accepted := ([AcceptCb(id, 0)] + a.fills)[0 := AcceptCb(id, qty - a.inbound.openQty)];
             cbs == if a.inbound.ioc && a.inbound.openQty != 0 then accepted + [CancelCb(id, 0)] else accepted
    ensures var out := AddOutcome(qty, a, r);
            out.book == r.book && out.cbs == cbs + r.fills + [BookUpdateCb] && out.matched == a.matched
  {
    Patched(AcceptCb(id, 0), AcceptCb(id, qty - a.inbound.openQty), a.fills);
    AcceptAlone([AcceptCb(id, qty - a.inbound.openQty)] + a.fills);
    assert qty - Min(qty, a.inbound.openQty) == qty - a.inbound.openQty;
  }

  lemma Patched(first: Callback, accept: Callback, fills: seq<Callback>)
    ensures ([first] + fills)[0 := accept] == [accept] + fills
  {
  }

  lemma AcceptAlone(cbs: seq<Callback>)
    ensures cbs + [] == cbs
  {
  }

  // ---- Cancel and replace ----

  /** The orders before and after the replace callback. */
  function ReplaceView(s: Sys, t: Tracker, d: int, price: nat): View {
    Seen(s.orders, s.book).(denv := ApplyCallback(s.orders, ReplaceCb(t.ptr, t.openQty, d, price)))
  }

  ghost predicate Replaceable(s: Sys, buy: bool, k: nat, t: Tracker, d: int, price: nat) {
    && k < |s.book.Side(buy)| && TakenOut(s, buy, k, t, Without(s.book, buy, k)) && t.openQty + d >= 0
    && (PriceOf(s.orders, t.ptr) != MARKET_ORDER_PRICE ==> price != MARKET_ORDER_PRICE)
  }

  lemma EmptiedIsReady(s: Sys, buy: bool, k: nat, t: Tracker, d: int, price: nat)
    requires Replaceable(s, buy, k, t, d, price) && t.openQty + d == 0
    ensures QueueOk(ReplaceView(s, t, d, price), Without(s.book, buy, k), [])
  {
    var v, b := ReplaceView(s, t, d, price), Without(s.book, buy, k);
    EmptiedPlaced(s, buy, k, t, b, d, price, v.denv, v);
    ReplacedViews(s, buy, k, t, b, d, price, v.denv, v);
    PlacedIsQueue(v, v.denv, b, s.retired);
  }

  lemma ResubmittedIsReady(s: Sys, buy: bool, k: nat, t: Tracker, d: int, price: nat)
    requires Replaceable(s, buy, k, t, d, price) && t.openQty + d > 0
    ensures var v, b, t' := ReplaceView(s, t, d, price), Without(s.book, buy, k), t.(openQty := t.openQty + d);
            && Submittable(v, b, t') && price == PriceOf(v.denv, t.ptr)
            && QueueOk(v, AddOrder(v.env, b, t', price).book, [])
  {
    hide Matching.AddOrder;
    var v, b, t' := ReplaceView(s, t, d, price), Without(s.book, buy, k), t.(openQty := t.openQty + d);
    ResubmittedComing(s, buy, k, t, b, d, price, v.denv, v);
    AddedIsQueue(v, b, t');
  }

  lemma EmptiedOutcome(orders: OrderMap, rest: Book, t: Tracker, d: int, price: nat, r: Submitted)
    requires t.openQty + d == 0 && r == SubmitPending(orders, rest)
    ensures var out := ReplaceTaken(orders, rest, t, d, price);
            out.book == r.book && out.cbs
                == [ReplaceCb(t.ptr, t.openQty, d, price)] + [CancelCb(t.ptr, 0)] + r.fills + [BookUpdateCb] &&
                   !out.matched
  {
    hide Matching.SubmitPending, Matching.AddOrder;
    assert [ReplaceCb(t.ptr, t.openQty, d, price)] + [CancelCb(t.ptr, 0)]
           == [ReplaceCb(t.ptr, t.openQty, d, price), CancelCb(t.ptr, 0)];
  }

  lemma ResubmittedOutcome(orders: OrderMap, rest: Book, t: Tracker, d: int, price: nat, a: Added, r: Submitted)
    requires t.openQty + d > 0 && a == AddOrder(orders, rest, t.(openQty := t.openQty + d), price)
    requires r == SubmitPending(orders, a.book)
    ensures var out := ReplaceTaken(orders, rest, t, d, price);
            out.book == r.book && out.cbs
                == [ReplaceCb(t.ptr, t.openQty, d, price)] + a.fills + r.fills + [BookUpdateCb] &&
                   out.matched == a.matched
  {
    hide Matching.SubmitPending, Matching.AddOrder;
  }

  lemma ReplaceViewIs(s: Sys, t: Tracker, d: int, price: nat)
    ensures ReplaceView(s, t, d, price).env == s.orders
  {
  }

  lemma ReplaceableIsOpen(s: Sys, buy: bool, k: nat, t: Tracker, d: int, price: nat)
    requires Replaceable(s, buy, k, t, d, price)
    ensures t.openQty + d >= 0
  {
  }

  lemma RestingHasOpen(s: Sys, buy: bool, k: nat)
    requires Inv(s) && k < |s.book.Side(buy)|
    ensures var t := s.book.Side(buy)[k].tracker; t.openQty > 0 && TakenOut(s, buy, k, t, Without(s.book, buy, k))
  {
    TakenIsPlaced(s, buy, k, s.book.Side(buy)[k].tracker, Without(s.book, buy, k));
  }
}
