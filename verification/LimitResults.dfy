/** Fills and limits: every fill of a request is acceptable to both its orders, up to fills priced
    by an order whose limit is being changed. */
module LimitResults {
  import opened Prices
  import opened Orders
  import opened Options
  import opened Books
  import opened Matching
  import opened Faces
  import opened Accounting
  import opened BookRuns
  import opened Cascade
  import opened Priority
  import opened Trades
  import opened Requests
  import opened DepthSpec
  import opened EngineSteps
  import opened System
  import opened RequestRuns
  import opened RequestInvariants
  import opened Results
  import opened Uncrossed

  /** Every fill is at or below the buyer's limit and at or above the seller's. */
  ghost predicate WithinLimits(orders: OrderMap, cbs: seq<Callback>) {
    forall i :: 0 <= i < |cbs| && cbs[i].FillCb? ==> BothAccept(orders, cbs[i])
  }

  /** The same for the fills that the engine does not price by an old limit. */
  ghost predicate FairlyPriced(v: View, orders: OrderMap, cbs: seq<Callback>) {
    forall i :: 0 <= i < |cbs| && cbs[i].FillCb? && PricedAsNow(v, cbs[i]) ==> BothAccept(orders, cbs[i])
  }

  lemma CarriedFairly(v: View, orders: OrderMap, cbs: seq<Callback>, fills: seq<Callback>)
    requires Carries(cbs, fills) && GoodTrades(v, fills) && Views(v, orders)
    ensures FairlyPriced(v, orders, cbs)
  {
    forall i | 0 <= i < |cbs| && cbs[i].FillCb? && PricedAsNow(v, cbs[i])
      ensures BothAccept(orders, cbs[i])
    {
      var j :| 0 <= j < |fills| && fills[j] == cbs[i];
      assert GoodTrade(v, fills[j]);
    }
  }

  lemma FinishFairly(v: View, orders: OrderMap, head: seq<Callback>, r: Submitted)
    requires GoodTrades(v, r.fills) && Views(v, orders) && NoFills(head)
    ensures FairlyPriced(v, orders, Finish(r, head, false, []).cbs)
  {
    CarriesParts(head, [], [], r.fills, [BookUpdateCb]);
    EmptyParts(head, [], r.fills, [BookUpdateCb]);
    EmptyParts(head, r.fills, [BookUpdateCb], []);
    EmptyParts(r.fills, [], [], []);
    CarriedFairly(v, orders, head + r.fills + [BookUpdateCb], r.fills);
  }

  lemma AddFairly(s: Sys, id: OrderId, order: Order, t: Tracker)
    requires Fresh(s, id, order, t)
    ensures var orders := s.orders[id := order];
            FairlyPriced(Seen(orders, s.book, [t]), orders, Add(orders, s.book, id, t.aon, t.ioc).cbs)
  {
    hide Placed, Recorded, QueueOk, Matching.AddOrder, Matching.SubmitPending, FairlyPriced;
    var orders := s.orders[id := order];
    var v := Seen(orders, s.book, [t]);
    if Held(orders, id, s.book.stops.marketPrice) {
      var b := HoldStop(orders, s.book, t);
      HeldStopInBook(s, id, order, t, b);
      PlacedIsQueue(v, s.orders[id := order.Accept()], b, s.retired);
      CascadeStep(v, b);
      FinishFairly(v, orders, [AcceptCb(id, 0)], SubmitPending(orders, b));
    } else {
      NewOrderComing(s, id, order, t);
      IsSubmission(v, s.book, t);
      var a := AddOrder(orders, s.book, t, order.price);
      AddOutcomeFairly(v, orders, order.qty, a, SubmitPending(orders, a.book));
    }
  }

  lemma AddOutcomeFairly(v: View, orders: OrderMap, qty: nat, a: Added, r: Submitted)
    requires GoodTrades(v, a.fills + r.fills) && Views(v, orders)
    ensures FairlyPriced(v, orders, AddOutcome(qty, a, r).cbs)
  {
    var head := AcceptCb(a.inbound.ptr, qty - Min(qty, a.inbound.openQty));
    CarriesParts([head], a.fills, CancelRest(a.inbound), r.fills, [BookUpdateCb]);
    CarriedFairly(v, orders, AddOutcome(qty, a, r).cbs, a.fills + r.fills);
  }

  lemma EmptyingFairly(s: Sys, buy: bool, k: nat, t: Tracker, b: Book, d: int, price: nat, orders: OrderMap, v: View)
    requires Replaced(s, buy, k, t, b, d, price, orders, v) && t.openQty + d == 0
    ensures FairlyPriced(v, orders, ReplaceTaken(s.orders, b, t, d, price).cbs)
  {
    hide FairlyPriced, Placed, Recorded, EngineStep, SubmitPending;
    EmptiedPlaced(s, buy, k, t, b, d, price, orders, v);
    ReplacedViews(s, buy, k, t, b, d, price, orders, v);
    PlacedIsQueue(v, orders, b, s.retired);
    CascadeStep(v, b);
    FinishFairly(v, orders, [ReplaceCb(t.ptr, t.openQty, d, price), CancelCb(t.ptr, 0)], SubmitPending(s.orders, b));
  }

  lemma ResubmittingFairly(s: Sys, buy: bool, k: nat, t: Tracker, b: Book, d: int, price: nat, orders: OrderMap,
                           v: View)
    requires Replaced(s, buy, k, t, b, d, price, orders, v) && t.openQty + d > 0
    ensures FairlyPriced(v, orders, ReplaceTaken(s.orders, b, t, d, price).cbs)
  {
    hide FairlyPriced, BookUncrossed, Inv, Coming, BookRuns.BookOk, Matching.AddOrder, Matching.SubmitPending;
    ReplacedViews(s, buy, k, t, b, d, price, orders, v);
    ResubmittedComing(s, buy, k, t, b, d, price, orders, v);
    IsSubmission(v, b, t.(openQty := t.openQty + d));
    var a := AddOrder(s.orders, b, t.(openQty := t.openQty + d), price);
    ResubmittedFairly(v, orders, ReplaceCb(t.ptr, t.openQty, d, price), a, SubmitPending(s.orders, a.book));
  }

  lemma ResubmittedFairly(v: View, orders: OrderMap, head: Callback, a: Added, r: Submitted)
    requires GoodTrades(v, a.fills + r.fills) && Views(v, orders) && !head.FillCb?
    ensures FairlyPriced(v, orders, Finish(r, [head] + a.fills, a.matched, a.dropped).cbs)
  {
    CarriesParts([head], a.fills, [], r.fills, [BookUpdateCb]);
    EmptyParts([head] + a.fills, [], [], []);
    CarriedFairly(v, orders, [head] + a.fills + r.fills + [BookUpdateCb], a.fills + r.fills);
  }

  // ---- A whole request ----

  /** The price a replaced order asks for. */
  function NewPrice(s: Sys, r: Request): nat
    requires r.ReplaceReq?
  {
    if r.newPrice == 0 then PriceOf(s.orders, r.id) else r.newPrice
  }

  /** The orders with the limits they have after the request. */
  function OrdersWithNewPrice(s: Sys, r: Request): OrderMap {
    if r.ReplaceReq? && FindOnMarket(s.orders, s.book, r.id) < |s.book.Side(IsBuy(s.orders, r.id))| && r.id in s.orders
    then s.orders[r.id := s.orders[r.id].(price := NewPrice(s, r))]
    else OrdersAt(s, r)
  }

  /** The limits the engine reads, and the limits after the request. */
  function LimitView(s: Sys, r: Request): View {
    View(OrdersAt(s, r), OrdersWithNewPrice(s, r), HasPrice(s.book.stops), None)
  }

  lemma SameFairness(v: View, v': View, orders: OrderMap, orders': OrderMap, cbs: seq<Callback>)
    requires FairlyPriced(v, orders, cbs)
    requires forall id :: PriceOf(v.env, id) == PriceOf(v'.env, id) && PriceOf(v.denv, id) == PriceOf(v'.denv, id)
    requires forall id :: PriceOf(orders, id) == PriceOf(orders', id) && IsBuy(orders, id) == IsBuy(orders', id)
    ensures FairlyPriced(v', orders', cbs)
  {
    forall i | 0 <= i < |cbs| && cbs[i].FillCb? && PricedAsNow(v', cbs[i])
      ensures BothAccept(orders', cbs[i])
    {
      assert PricedAsNow(v, cbs[i]);
    }
  }

  lemma ReplaceFairly(s: Sys, r: Request)
    requires Inv(s) && Proper(s, r) && r.ReplaceReq?
    ensures FairlyPriced(LimitView(s, r), OrdersWithNewPrice(s, r), Emitted(s, r))
  {
    hide Inv, FairlyPriced, ReplaceTaken, Placed;
    var buy := IsBuy(s.orders, r.id);
    var k := FindOnMarket(s.orders, s.book, r.id);
    if k < |s.book.Side(buy)| {
      var t := s.book.Side(buy)[k].tracker;
      FindsExactlyResting(s, r.id, k);
      var b, d, price := Without(s.book, buy, k), ClipDelta(r.delta, t.openQty), NewPrice(s, r);
      var orders := ApplyCallback(s.orders, ReplaceCb(t.ptr, t.openQty, d, price));
      var v := Seen(s.orders, s.book).(denv := orders);
      ReplacedOrder(s, buy, k, t, b, d, price, orders, v);
      if t.openQty + d == 0 {
        EmptyingFairly(s, buy, k, t, b, d, price, orders, v);
      } else {
        ResubmittingFairly(s, buy, k, t, b, d, price, orders, v);
      }
      SameFairness(v, LimitView(s, r), orders, OrdersWithNewPrice(s, r), ReplaceTaken(s.orders, b, t, d, price).cbs);
    } else {
      NoFillsFairly(LimitView(s, r), OrdersWithNewPrice(s, r), ReplaceRejectCb(r.id));
    }
  }

  lemma NoFillsFairly(v: View, orders: OrderMap, cb: Callback)
    requires !cb.FillCb?
    ensures FairlyPriced(v, orders, [cb])
  {
  }

  /** Every fill of a request is within the limits that both orders have after it, unless it is
      made at the price of an order that is just being given another one. */
  lemma RequestFairlyPriced(s: Sys, r: Request)
    requires Inv(s) && Proper(s, r)
    ensures FairlyPriced(LimitView(s, r), OrdersWithNewPrice(s, r), Emitted(s, r))
  {
    hide Inv;
    match r
    case AddReq(id, order, aon, ioc) =>
      if order.qty > 0 {
        IsFresh(s, id, order, aon, ioc);
        AddFairly(s, id, order, Tracker(id, order.qty, aon, ioc));
        SameFairness(Seen(s.orders[id := order], s.book, [Tracker(id, order.qty, aon, ioc)]), LimitView(s, r),
                     s.orders[id := order], OrdersWithNewPrice(s, r), Emitted(s, r));
      }
    case CancelReq(id) =>
    case ReplaceReq(id, delta, newPrice) => ReplaceFairly(s, r);
    case MarketPriceReq(price) =>
  }

  /** Nobody's price changes in this request. */
  predicate KeepsPrices(s: Sys, r: Request) {
    r.ReplaceReq? ==> r.newPrice == 0 || r.newPrice == PriceOf(s.orders, r.id)
  }

  /** A request that changes no price keeps every fill within the limits. */
  lemma RequestWithinLimits(s: Sys, r: Request)
    requires Inv(s) && Proper(s, r) && KeepsPrices(s, r)
    ensures WithinLimits(OrdersAt(s, r), Emitted(s, r))
  {
    hide Inv, Proper, Emitted;
    RequestFairlyPriced(s, r);
    forall i | 0 <= i < |Emitted(s, r)| && Emitted(s, r)[i].FillCb?
      ensures BothAccept(OrdersAt(s, r), Emitted(s, r)[i])
    {
      assert PricedAsNow(LimitView(s, r), Emitted(s, r)[i]);
    }
  }

  // ---- When a new price is safe ----

  ghost predicate TradesWith(side: seq<Entry>, id: OrderId, cb: Callback) {
    cb.FillCb? && cb.order == id && exists j :: 0 <= j < |side| && side[j].tracker.ptr == cb.matched
  }

  ghost predicate AllTradeWith(side: seq<Entry>, id: OrderId, fills: seq<Callback>) {
    forall i :: 0 <= i < |fills| ==> TradesWith(side, id, fills[i])
  }

  /** Every fill of a match is between the inbound order and an order of the side. */
  lemma {:induction false} RunTradesWith(env: OrderMap, price: nat, f: Face, fills: seq<Callback>, g: Face)
    requires Runs(env, price, f, fills, g)
    ensures AllTradeWith(f.side, f.inbound.ptr, fills)
    decreases |fills|
  {
    if fills != [] {
      var f' := ApplyFill(f, fills[0]);
      RunTradesWith(env, price, f', fills[1..], g);
      assert f.side[IndexOf(f.side, fills[0].matched)].tracker.ptr == fills[0].matched;
      forall i | 0 < i < |fills|
        ensures TradesWith(f.side, f.inbound.ptr, fills[i])
      {
        assert TradesWith(f'.side, f'.inbound.ptr, fills[1..][i - 1]);
        var j :| 0 <= j < |f'.side| && f'.side[j].tracker.ptr == fills[i].matched;
        SettledComesFrom(f.side, IndexOf(f.side, fills[0].matched),
                         f.side[IndexOf(f.side, fills[0].matched)].tracker.Reduce(fills[0].quantity), j);
      }
    }
  }

  lemma SettledComesFrom(side: seq<Entry>, k: nat, t: Tracker, j: nat)
    requires k < |side| && t.ptr == side[k].tracker.ptr && j < |Settle(side, k, t)|
    ensures exists i :: 0 <= i < |side| && side[i].tracker.ptr == Settle(side, k, t)[j].tracker.ptr
  {
    var i := if t.openQty == 0 && k <= j then j + 1 else j;
    assert side[i].tracker.ptr == Settle(side, k, t)[j].tracker.ptr;
  }

  /** Only all-or-none orders are deferred. */
  lemma {:induction false} RegularDefersNone(env: OrderMap, inbound: Tracker, price: nat, done: seq<Entry>,
                                             rest: seq<Entry>, sb: StopBook)
    requires AllRegular(rest)
    ensures MatchRegular(env, inbound, price, done, rest, sb).deferred == []
    decreases |rest|
  {
    hide Matching.CreateTrade, Past;
    if rest != [] && inbound.openQty != 0 && rest[0].key.Matches(price) {
      var t := CreateTrade(env, inbound, rest[0].tracker, inbound.openQty, sb);
      RegularDefersNone(env, t.inbound, price, Past(done, rest[0], t.current), rest[1..], t.stops);
    }
  }

  lemma {:induction false} AonDefersNone(env: OrderMap, inbound: Tracker, qty: nat, price: nat, done: seq<Entry>,
                                         rest: seq<Entry>,
                                         held: seq<OrderId>, heldQty: nat, sb: StopBook)
    requires AllRegular(rest)
    ensures MatchAon(env, inbound, qty, price, done, rest, held, heldQty, sb).deferred == []
    decreases |rest|
  {
    hide Matching.CreateTrade, TryDeferred, Past;
    if rest != [] && inbound.openQty != 0 && rest[0].key.Matches(price) {
      var e, tail := rest[0], rest[1..];
      var cur := e.tracker.openQty;
      if cur + heldQty < qty {
        AonDefersNone(env, inbound, qty, price, done + [e], tail, held + [e.tracker.ptr], heldQty + cur, sb);
      } else {
        var d := TryDeferred(env, inbound, held, qty, if qty > cur then qty - cur else 0, done, sb);
        if cur + d.traded < qty {
          AonDefersNone(env, d.inbound, qty, price, d.side + [e], tail, held, heldQty, d.stops);
        } else {
          var t := CreateTrade(env, d.inbound, e.tracker, d.inbound.openQty, d.stops);
          AonDefersNone(env, t.inbound, qty - Min(qty, d.traded + t.qty), price, Past(d.side, e, t.current), tail, held,
                        heldQty, t.stops);
        }
      }
    }
  }

  lemma DefersNone(env: OrderMap, inbound: Tracker, price: nat, side: seq<Entry>, sb: StopBook)
    requires AllRegular(side)
    ensures MatchOrder(env, inbound, price, side, sb).deferred == []
  {
    if inbound.aon {
      AonDefersNone(env, inbound, inbound.openQty, price, [], side, [], 0, sb);
    } else {
      RegularDefersNone(env, inbound, price, [], side, sb);
    }
  }

  predicate Untroubled(sb: StopBook) {
    sb.Load() == 0
  }

  /** With nothing held back and no all-or-none order opposite, adding an order is its first match. */
  lemma OnlyFirstMatch(env: OrderMap, b: Book, t: Tracker, price: nat)
    requires Untroubled(b.stops) && AllRegular(b.Side(!IsBuy(env, t.ptr)))
    ensures var a := AddOrder(env, b, t, price);
            && a.fills == MatchOrder(env, t, price, b.Side(!IsBuy(env, t.ptr)), b.stops).fills
            && SubmitPending(env, a.book).fills == []
  {
    hide Matching.MatchOrder, Insert;
    var m := MatchOrder(env, t, price, b.Side(!IsBuy(env, t.ptr)), b.stops);
    DefersNone(env, t, price, b.Side(!IsBuy(env, t.ptr)), b.stops);
    assert m.fills + [] == m.fills;
  }

  predicate AllLimit(side: seq<Entry>) {
    forall j :: 0 <= j < |side| ==> !side[j].tracker.aon && side[j].key.price != MARKET_ORDER_PRICE
  }

  /** Nothing is held back, and the other side holds regular limit orders only. */
  predicate MovesSafely(s: Sys, r: Request) {
    r.ReplaceReq? && Untroubled(s.book.stops) && AllLimit(s.book.Side(!IsBuy(s.orders, r.id)))
  }

  lemma TradedWithLimit(s: Sys, buy: bool, k: nat, t: Tracker, b: Book, d: int, price: nat, orders: OrderMap, v: View,
                        cb: Callback)
    requires Replaced(s, buy, k, t, b, d, price, orders, v) && AllLimit(s.book.Side(!buy))
    requires TradesWith(s.book.Side(!buy), t.ptr, cb)
    ensures PricedAsNow(v, cb)
  {
    hide Inv, Replaced;
    ReplacedSides(s, buy, k, t, b, d, price, orders, v);
    var j :| 0 <= j < |s.book.Side(!buy)| && s.book.Side(!buy)[j].tracker.ptr == cb.matched;
    assert Resting(Seen(s.orders, s.book), s.book.Side(!buy)[j], !buy);
  }

  lemma ReplacedSides(s: Sys, buy: bool, k: nat, t: Tracker, b: Book, d: int, price: nat, orders: OrderMap, v: View)
    requires Replaced(s, buy, k, t, b, d, price, orders, v)
    ensures SideOk(Seen(s.orders, s.book), s.book.Side(!buy), !buy) && IsBuy(s.orders, t.ptr) == buy
    ensures b.Side(!buy) == s.book.Side(!buy) && b.stops == s.book.stops
    ensures v.env == s.orders && forall id :: id != t.ptr ==> PriceOf(v.denv, id) == PriceOf(s.orders, id)
  {
    ReplacedOrder(s, buy, k, t, b, d, price, orders, v);
    assert SideOk(Seen(s.orders, s.book), s.book.Side(buy), buy);
    assert Resting(Seen(s.orders, s.book), s.book.Side(buy)[k], buy);
  }

  ghost predicate AllPricedAsNow(v: View, cbs: seq<Callback>) {
    forall i :: 0 <= i < |cbs| && cbs[i].FillCb? ==> PricedAsNow(v, cbs[i])
  }

  lemma ResubmittedSafely(s: Sys, buy: bool, k: nat, t: Tracker, b: Book, d: int, price: nat, orders: OrderMap, v: View)
    requires Replaced(s, buy, k, t, b, d, price, orders, v) && t.openQty + d > 0
    requires Untroubled(s.book.stops) && AllLimit(s.book.Side(!buy))
    ensures AllPricedAsNow(v, ReplaceTaken(s.orders, b, t, d, price).cbs)
  {
    hide Inv, Replaced, Matching.AddOrder, Matching.MatchOrder, Matching.SubmitPending, Runs, PricedAsNow, Untroubled,
         BookRuns.BookOk, TakenOut;
    var t' := t.(openQty := t.openQty + d);
    ReplacedSides(s, buy, k, t, b, d, price, orders, v);
    ResubmittedComing(s, buy, k, t, b, d, price, orders, v);
    MayMatch(v, b, t', buy);
    var side := s.book.Side(!buy);
    MatchOrderRuns(v, t', price, side, b.stops);
    var m := MatchOrder(s.orders, t', price, side, b.stops);
    RunTradesWith(s.orders, price, Face(t', side, b.stops), m.fills, Face(m.inbound, m.side, m.stops));
    forall i | 0 <= i < |m.fills|
      ensures m.fills[i].FillCb? && PricedAsNow(v, m.fills[i])
    {
      assert TradesWith(side, t.ptr, m.fills[i]);
      TradedWithLimit(s, buy, k, t, b, d, price, orders, v, m.fills[i]);
    }
    MovedCallbacks(s.orders, b, t, d, price);
    PricedBetween(v, ReplaceCb(t.ptr, t.openQty, d, price), m.fills);
  }

  /** With nothing held back and only regular orders opposite, a replaced order is matched once. */
  lemma MovedCallbacks(orders: OrderMap, b: Book, t: Tracker, d: int, price: nat)
    requires t.openQty + d > 0 && Untroubled(b.stops) && AllRegular(b.Side(!IsBuy(orders, t.ptr)))
    ensures var m := MatchOrder(orders, t.(openQty := t.openQty + d), price, b.Side(!IsBuy(orders, t.ptr)), b.stops);
            ReplaceTaken(orders, b, t, d, price).cbs
            == [ReplaceCb(t.ptr, t.openQty, d, price)] + m.fills + [BookUpdateCb]
  {
    hide Matching.AddOrder, Matching.MatchOrder, Matching.SubmitPending, Untroubled;
    OnlyFirstMatch(orders, b, t.(openQty := t.openQty + d), price);
    var fills := MatchOrder(orders, t.(openQty := t.openQty + d), price, b.Side(!IsBuy(orders, t.ptr)), b.stops).fills;
    assert [ReplaceCb(t.ptr, t.openQty, d, price)] + fills + [] == [ReplaceCb(t.ptr, t.openQty, d, price)] + fills;
  }

  lemma PricedBetween(v: View, head: Callback, fills: seq<Callback>)
    requires head.ReplaceCb? && AllPricedAsNow(v, fills)
    ensures AllPricedAsNow(v, [head] + fills + [BookUpdateCb])
  {
    hide PricedAsNow;
    var cbs := [head] + fills + [BookUpdateCb];
    forall i | 0 <= i < |cbs| && cbs[i].FillCb?
      ensures PricedAsNow(v, cbs[i])
    {
      assert cbs[i] == fills[i - 1];
    }
  }

  lemma MayMatch(v: View, b: Book, t: Tracker, buy: bool)
    requires Coming(v, b, t)
    ensures Clean(b.Side(!buy)) && Fair(v, t) && (v.priced ==> b.stops.marketPrice != MARKET_ORDER_PRICE)
  {
  }

  /** A replacement that can only meet regular limit orders, and releases nothing, keeps every fill
      within the new limits too. */
  lemma MoveWithinLimits(s: Sys, r: Request)
    requires Inv(s) && Proper(s, r) && MovesSafely(s, r)
    ensures WithinLimits(OrdersWithNewPrice(s, r), Emitted(s, r))
  {
    hide Inv, ReplaceTaken, PricedAsNow, BothAccept, FindOnMarket, Placed;
    RequestFairlyPriced(s, r);
    var buy := IsBuy(s.orders, r.id);
    var k := FindOnMarket(s.orders, s.book, r.id);
    if k < |s.book.Side(buy)| {
      var t := s.book.Side(buy)[k].tracker;
      FindsExactlyResting(s, r.id, k);
      var b, d, price := Without(s.book, buy, k), ClipDelta(r.delta, t.openQty), NewPrice(s, r);
      var orders := ApplyCallback(s.orders, ReplaceCb(t.ptr, t.openQty, d, price));
      var v := Seen(s.orders, s.book).(denv := orders);
      ReplacedOrder(s, buy, k, t, b, d, price, orders, v);
      if t.openQty + d > 0 {
        ResubmittedSafely(s, buy, k, t, b, d, price, orders, v);
        SamePricing(v, LimitView(s, r), Emitted(s, r));
      } else {
        NothingTraded(s.orders, b, t, d, price);
      }
    }
  }

  lemma SamePricing(v: View, v': View, cbs: seq<Callback>)
    requires AllPricedAsNow(v, cbs)
    requires forall id :: PriceOf(v.env, id) == PriceOf(v'.env, id) && PriceOf(v.denv, id) == PriceOf(v'.denv, id)
    ensures AllPricedAsNow(v', cbs)
  {
  }

  lemma NothingTraded(orders: OrderMap, b: Book, t: Tracker, d: int, price: nat)
    requires t.openQty + d == 0 && Untroubled(b.stops)
    ensures forall i :: 0 <= i < |ReplaceTaken(orders, b, t, d, price).cbs| ==>
            !ReplaceTaken(orders, b, t, d, price).cbs[i].FillCb?
  {
  }

  // ---- When it is not ----

  const SALE := Order(false, 100, 10, 0, 0, 0, Accepted)
  const PURCHASE := Order(true, 0, 20, 0, 0, 0, Accepted)

  const TRADERS: OrderMap := map[1 := SALE, 2 := PURCHASE]
  const AT_100 := StopBook(100, [], [], [])
  const WAITING_BID := Entry(ComparablePrice(true, 0), Tracker(2, 20, true, false))

  lemma SaleMatches()
    ensures MatchRegular(TRADERS, Tracker(1, 20, false, false), 110, [], [WAITING_BID], AT_100)
         == Match(Tracker(1, 0, false, false), [], AT_100, [], [FillCb(1, 2, 20, 100, true, true)], true)
  {
    var env, inbound, e, sb := TRADERS, Tracker(1, 20, false, false), WAITING_BID, AT_100;
    var t := CreateTrade(env, inbound, e.tracker, 20, sb);
    assert t.qty == 20 && t.fills == [FillCb(1, 2, 20, 100, true, true)] && t.inbound == Tracker(1, 0, false, false) &&
           t.stops == sb;
    assert [e][1..] == [] && Past([], e, t.current) == [];
    assert MatchRegular(env, t.inbound, 110, [], [], sb) == Match(t.inbound, [] + [], sb, [], [], false);
    assert t.fills + [] == t.fills;
  }

  /** A sale of 10 at 100 rests beside an all-or-none purchase of 20. Replaced by a sale of 20 at
      110 it trades with it at once, at its old price of 100. */
  lemma ReplaceBreaksLimit()
    ensures var b := Book([WAITING_BID], [Entry(ComparablePrice(false, 100), Tracker(1, 10, false, false))], AT_100);
            FillCb(1, 2, 20, 100, true, true) in Replace(TRADERS, b, 1, 10, 110).cbs
    ensures !Acceptable(TRADERS[1 := SALE.(qty := 20, price := 110)], 1, 100)
  {
    hide Matching.MatchRegular, Matching.SubmitPending;
    var orders, bids, asks := TRADERS, [WAITING_BID],
        [Entry(ComparablePrice(false, 100), Tracker(1, 10, false, false))];
    var b := Book(bids, asks, AT_100);
    assert FindOnMarket(orders, b, 1) == 0;
    SaleMatches();
    var rest := Without(b, false, 0);
    assert rest.bids == bids && rest.stops == b.stops;
    var a := AddOrder(orders, rest, Tracker(1, 20, false, false), 110);
    assert a.fills == [FillCb(1, 2, 20, 100, true, true)];
    var cbs := Replace(orders, b, 1, 10, 110).cbs;
    assert cbs == [ReplaceCb(1, 10, 10, 110)] + a.fills + SubmitPending(orders, a.book).fills + [BookUpdateCb];
    assert cbs[1] == a.fills[0];
  }
}
