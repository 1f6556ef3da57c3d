/** Stop orders at the requests: which are held back and where, which a new market price releases,
    and that a held order keeps its place until then. */
module StopResults {
  import opened Prices
  import opened Orders
  import opened Books
  import opened Matching
  import opened Accounting
  import opened BookRuns
  import opened Cascade
  import opened DepthSpec
  import opened Requests
  import opened OrdersAfter
  import opened System
  import opened RequestRuns
  import opened RequestInvariants
  import opened Results
  import opened Quotes

  // ---- What a new price releases ----

  /** A stop order that stays held at this price: below it for a buy, above it for a sell. */
  predicate StaysAt(key: ComparablePrice, price: nat) {
    if key.buySide then key.price < price else price < key.price
  }

  function Staying(stops: seq<Entry>, price: nat): seq<Entry> {
    if stops == [] then []
    else (if StaysAt(stops[0].key, price) then [stops[0]] else []) + Staying(stops[1..], price)
  }

  function Leaving(stops: seq<Entry>, price: nat): seq<Entry> {
    if stops == [] then []
    else (if StaysAt(stops[0].key, price) then [] else [stops[0]]) + Leaving(stops[1..], price)
  }

  ghost predicate HeldInOrder(stops: seq<Entry>, buySide: bool) {
    && Sorted(stops) && OneSided(stops, buySide)
    && forall k :: 0 <= k < |stops| ==> stops[k].key.price != MARKET_ORDER_PRICE
  }

  lemma {:induction false} AllStay(stops: seq<Entry>, price: nat)
    requires forall k :: 0 <= k < |stops| ==> StaysAt(stops[k].key, price)
    ensures Staying(stops, price) == stops && Leaving(stops, price) == []
  {
    if stops != [] {
      AllStay(stops[1..], price);
      assert [stops[0]] + stops[1..] == stops;
    }
  }

  lemma FirstStays(stops: seq<Entry>, buySide: bool, price: nat)
    requires HeldInOrder(stops, buySide) && stops != [] && price != MARKET_ORDER_PRICE
    ensures ComparablePrice(buySide, price).Less(stops[0].key) <==> StaysAt(stops[0].key, price)
    ensures StaysAt(stops[0].key, price) ==> forall k :: 0 <= k < |stops| ==> StaysAt(stops[k].key, price)
  {
    forall k | 0 < k < |stops|
      ensures !stops[k].key.Less(stops[0].key)
    {
    }
  }

  /** The prefix that is released is what leaves. */
  lemma {:induction false} ReleaseLeaves(stops: seq<Entry>, buySide: bool, price: nat)
    requires HeldInOrder(stops, buySide) && price != MARKET_ORDER_PRICE
    ensures var n := ReleaseCount(ComparablePrice(buySide, price), stops);
            Staying(stops, price) == stops[n..] && Leaving(stops, price) == stops[..n]
    decreases |stops|
  {
    if stops != [] {
      FirstStays(stops, buySide, price);
      if StaysAt(stops[0].key, price) {
        AllStay(stops, price);
      } else {
        ReleaseLeaves(stops[1..], buySide, price);
        NextLeaves(stops, ReleaseCount(ComparablePrice(buySide, price), stops[1..]));
      }
    }
  }

  lemma NextLeaves(stops: seq<Entry>, n: nat)
    requires stops != [] && n < |stops|
    ensures stops[1..][n..] == stops[n + 1..] && [] + stops[1..][n..] == stops[n + 1..]
    ensures [stops[0]] + stops[1..][..n] == stops[..n + 1]
  {
  }

  /** A rise, and a first price, only look at the buy stops; a fall only at the sell stops; the same
      price again at none. */
  lemma PriceMovesOneSide(sb: StopBook, price: nat)
    ensures var r := Matching.SetMarketPrice(sb, price);
            && r.marketPrice == price
            && (sb.marketPrice == 0 || price > sb.marketPrice ==> r.stopAsks == sb.stopAsks)
            && (sb.marketPrice != 0 && price < sb.marketPrice ==> r.stopBids == sb.stopBids)
            && (sb.marketPrice != 0 && price == sb.marketPrice ==> r == sb)
  {
  }

  /** On the side it looks at, a new price keeps the stop orders below it (buys), or above it
      (sells), and the others wait to be submitted, in order. */
  lemma PriceReleases(sb: StopBook, price: nat)
    requires price != MARKET_ORDER_PRICE && HeldInOrder(sb.stopBids, true) && HeldInOrder(sb.stopAsks, false)
    ensures var r := Matching.SetMarketPrice(sb, price);
            if sb.marketPrice == 0 || price > sb.marketPrice then
              && r.stopBids == Staying(sb.stopBids, price)
              && r.pending == sb.pending + Trackers(Leaving(sb.stopBids, price))
            else if price < sb.marketPrice then
              && r.stopAsks == Staying(sb.stopAsks, price)
              && r.pending == sb.pending + Trackers(Leaving(sb.stopAsks, price))
            else r.pending == sb.pending
  {
    hide ReleaseCount, Staying, Leaving, HeldInOrder;
    ReleaseLeaves(sb.stopBids, true, price);
    ReleaseLeaves(sb.stopAsks, false, price);
  }

  // ---- Where stop orders are held ----

  /** A held order has a stop price, and is held at it on its own side. */
  predicate HeldAt(orders: OrderMap, e: Entry, buySide: bool) {
    && e.tracker.ptr in orders && orders[e.tracker.ptr].isBuy == buySide
    && e.key == ComparablePrice(buySide, orders[e.tracker.ptr].stopPrice)
    && orders[e.tracker.ptr].stopPrice != 0
  }

  ghost predicate HeldRight(orders: OrderMap, stops: seq<Entry>, buySide: bool) {
    forall k :: 0 <= k < |stops| ==> HeldAt(orders, stops[k], buySide)
  }

  ghost predicate StopsHeldRight(orders: OrderMap, sb: StopBook) {
    HeldRight(orders, sb.stopBids, true) && HeldRight(orders, sb.stopAsks, false)
  }

  /** Nothing that happens to an order changes its side or its stop price. */
  ghost predicate SameStops(orders: OrderMap, orders': OrderMap) {
    forall x :: x in orders ==>
      x in orders' && orders'[x].isBuy == orders[x].isBuy && orders'[x].stopPrice == orders[x].stopPrice
  }

  lemma {:induction false} CallbacksKeepStops(orders: OrderMap, cbs: seq<Callback>)
    ensures SameStops(orders, ApplyAll(orders, cbs))
    decreases |cbs|
  {
    hide FillOne;
    if cbs != [] {
      OneKeepsStops(orders, cbs[0]);
      CallbacksKeepStops(ApplyCallback(orders, cbs[0]), cbs[1..]);
    }
  }

  lemma OneKeepsStops(orders: OrderMap, cb: Callback)
    ensures SameStops(orders, ApplyCallback(orders, cb))
  {
  }

  lemma HeldLater(orders: OrderMap, orders': OrderMap, sb: StopBook, sb': StopBook)
    requires StopsHeldRight(orders, sb) && SameStops(orders, orders') && StillHeld(sb', sb)
    ensures StopsHeldRight(orders', sb')
  {
    HeldLaterOn(orders, orders', sb.stopBids, sb'.stopBids, true);
    HeldLaterOn(orders, orders', sb.stopAsks, sb'.stopAsks, false);
  }

  lemma HeldLaterOn(orders: OrderMap, orders': OrderMap, stops: seq<Entry>, stops': seq<Entry>, buySide: bool)
    requires HeldRight(orders, stops, buySide) && SameStops(orders, orders') && LastOf(stops', stops)
    ensures HeldRight(orders', stops', buySide)
  {
    forall k | 0 <= k < |stops'|
      ensures HeldAt(orders', stops'[k], buySide)
    {
      assert stops'[k] == stops[|stops| - |stops'| + k];
      assert HeldAt(orders, stops[|stops| - |stops'| + k], buySide);
    }
  }

  /** A stop order is held exactly when there is a market price, and it has not reached the stop
      price. */
  lemma HeldExactlyWhen(orders: OrderMap, id: OrderId, marketPrice: nat)
    ensures Held(orders, id, marketPrice)
       <==> && id in orders && orders[id].stopPrice != 0 && marketPrice != MARKET_ORDER_PRICE
            && !Reached(ComparablePrice(orders[id].isBuy, orders[id].stopPrice), marketPrice)
  {
  }

  lemma JoinsHeldRight(orders: OrderMap, stops: seq<Entry>, e: Entry, buySide: bool)
    requires HeldRight(orders, stops, buySide) && HeldAt(orders, e, buySide)
    ensures HeldRight(orders, Insert(stops, e), buySide)
  {
    var k := InsertPos(stops, e.key);
    forall i | 0 <= i < |stops| + 1
      ensures HeldAt(orders, Insert(stops, e)[i], buySide)
    {
      assert i < k ==> Insert(stops, e)[i] == stops[i];
      assert i > k ==> Insert(stops, e)[i] == stops[i - 1];
    }
  }

  /** The stop orders from which a new order's request goes on. */
  function StopsBefore(orders: OrderMap, b: Book, t: Tracker): StopBook
    requires t.ptr in orders
  {
    if Held(orders, t.ptr, b.stops.marketPrice) then HoldStop(orders, b, t).stops else b.stops
  }

  lemma AddedStops(orders: OrderMap, b: Book, id: OrderId, aon: bool, ioc: bool)
    requires id in orders && orders[id].qty > 0
    ensures StillHeld(Add(orders, b, id, aon, ioc).book.stops,
                      StopsBefore(orders, b, Tracker(id, orders[id].qty, aon, ioc)))
  {
    hide Matching.AddOrder, Matching.SubmitPending, LastOf, HoldStop, Held, Quoted;
    var t := Tracker(id, orders[id].qty, aon, ioc);
    if Held(orders, id, b.stops.marketPrice) {
      SubmitPendingQuotes(orders, HoldStop(orders, b, t));
    } else {
      AddQuotes(orders, b, t, orders[id].price);
      var a := AddOrder(orders, b, t, orders[id].price);
      SubmitPendingQuotes(orders, a.book);
      HeldThrough(SubmitPending(orders, a.book).book.stops, a.book.stops, b.stops);
    }
  }

  lemma HeldThrough(a: StopBook, b: StopBook, c: StopBook)
    requires StillHeld(a, b) && StillHeld(b, c)
    ensures StillHeld(a, c)
  {
    LastOfTransitive(a.stopBids, b.stopBids, c.stopBids);
    LastOfTransitive(a.stopAsks, b.stopAsks, c.stopAsks);
  }

  lemma ReplacedStops(orders: OrderMap, rest: Book, t: Tracker, d: int, price: nat)
    requires t.openQty + d >= 0
    ensures StillHeld(ReplaceTaken(orders, rest, t, d, price).book.stops, rest.stops)
  {
    hide Matching.AddOrder, Matching.SubmitPending, LastOf, Quoted;
    if t.openQty + d == 0 {
      SubmitPendingQuotes(orders, rest);
    } else {
      var t' := t.(openQty := t.openQty + d);
      AddQuotes(orders, rest, t', price);
      var a := AddOrder(orders, rest, t', price);
      SubmitPendingQuotes(orders, a.book);
      HeldThrough(SubmitPending(orders, a.book).book.stops, a.book.stops, rest.stops);
    }
  }

  lemma AddKeepsHeldRight(s: Sys, id: OrderId, order: Order, aon: bool, ioc: bool)
    requires StopsHeldRight(s.orders, s.book.stops) && id !in s.orders && order.qty > 0
    ensures var s' := Handle(s, AddReq(id, order, aon, ioc)); StopsHeldRight(s'.orders, s'.book.stops)
  {
    hide HeldRight, StillHeld, SameStops, Add, ApplyAll;
    var orders := s.orders[id := order];
    var t := Tracker(id, order.qty, aon, ioc);
    var out := Add(orders, s.book, id, aon, ioc);
    NewOrderStops(s.orders, id, order);
    HeldSame(s.book.stops);
    HeldLater(s.orders, orders, s.book.stops, s.book.stops);
    StartRight(orders, s.book, t);
    AddedStops(orders, s.book, id, aon, ioc);
    CallbacksKeepStops(orders, out.cbs);
    HeldLater(orders, ApplyAll(orders, out.cbs), StopsBefore(orders, s.book, t), out.book.stops);
  }

  lemma HeldSame(sb: StopBook)
    ensures StillHeld(sb, sb)
  {
  }

  lemma NewOrderStops(orders: OrderMap, id: OrderId, order: Order)
    requires id !in orders
    ensures SameStops(orders, orders[id := order])
  {
  }

  lemma StartRight(orders: OrderMap, b: Book, t: Tracker)
    requires StopsHeldRight(orders, b.stops) && t.ptr in orders
    ensures StopsHeldRight(orders, StopsBefore(orders, b, t))
  {
    hide HeldRight, Insert;
    if Held(orders, t.ptr, b.stops.marketPrice) {
      var o := orders[t.ptr];
      JoinsHeldRight(orders, if o.isBuy then b.stops.stopBids else b.stops.stopAsks,
                     Entry(ComparablePrice(o.isBuy, o.stopPrice), t), o.isBuy);
    }
  }

  lemma ReplaceKeepsHeldRight(s: Sys, id: OrderId, delta: int, newPrice: nat)
    requires StopsHeldRight(s.orders, s.book.stops)
    ensures var s' := Handle(s, ReplaceReq(id, delta, newPrice)); StopsHeldRight(s'.orders, s'.book.stops)
  {
    hide HeldRight, StillHeld, SameStops, ReplaceTaken, ApplyAll;
    var out := Replace(s.orders, s.book, id, delta, newPrice);
    var buy := IsBuy(s.orders, id);
    var k := FindOnMarket(s.orders, s.book, id);
    HeldSame(s.book.stops);
    if k < |s.book.Side(buy)| {
      var t := s.book.Side(buy)[k].tracker;
      ReplacedStops(s.orders, Without(s.book, buy, k), t, ClipDelta(delta, t.openQty),
                    if newPrice == 0 then PriceOf(s.orders, id) else newPrice);
    }
    CallbacksKeepStops(s.orders, out.cbs);
    HeldLater(s.orders, ApplyAll(s.orders, out.cbs), s.book.stops, out.book.stops);
  }

  /** Every request keeps the held orders at their stop prices, each on its own side. */
  lemma HandleKeepsHeldRight(s: Sys, r: Request)
    requires StopsHeldRight(s.orders, s.book.stops) && (r.AddReq? ==> r.id !in s.orders)
    ensures StopsHeldRight(Handle(s, r).orders, Handle(s, r).book.stops)
  {
    hide HeldRight, StillHeld, SameStops, ApplyAll, Replace, FindOnMarket, Matching.SetMarketPrice, Without;
    HeldSame(s.book.stops);
    match r
    case AddReq(id, order, aon, ioc) =>
      if order.qty > 0 {
        AddKeepsHeldRight(s, id, order, aon, ioc);
      } else {
        var orders := s.orders[id := order];
        NewOrderStops(s.orders, id, order);
        CallbacksKeepStops(orders, [RejectCb(id)]);
        HeldLater(s.orders, orders, s.book.stops, s.book.stops);
        HeldLater(orders, ApplyAll(orders, [RejectCb(id)]), s.book.stops, s.book.stops);
      }
    case CancelReq(id) =>
      var out := Requests.Cancel(s.orders, s.book, id);
      CancelKeepsStopBook(s.orders, s.book, id);
      CallbacksKeepStops(s.orders, out.cbs);
      HeldLater(s.orders, ApplyAll(s.orders, out.cbs), s.book.stops, s.book.stops);
    case ReplaceReq(id, delta, newPrice) => ReplaceKeepsHeldRight(s, id, delta, newPrice);
    case MarketPriceReq(price) =>
      PriceHolds(s.book.stops, price);
      CallbacksKeepStops(s.orders, []);
      NothingApplied(s.orders);
      HeldLater(s.orders, s.orders, s.book.stops, Matching.SetMarketPrice(s.book.stops, price));
  }

  lemma NothingApplied(orders: OrderMap)
    ensures ApplyAll(orders, []) == orders
  {
  }

  lemma CancelKeepsStopBook(orders: OrderMap, b: Book, id: OrderId)
    ensures Requests.Cancel(orders, b, id).book.stops == b.stops
  {
  }

  /** In every reachable state. */
  lemma {:induction false} RunKeepsHeldRight(s: Sys, rs: seq<Request>, s': Sys)
    requires StopsHeldRight(s.orders, s.book.stops) && Reaches(s, rs, s')
    ensures StopsHeldRight(s'.orders, s'.book.stops)
    decreases |rs|
  {
    hide StopsHeldRight, Handle;
    if rs != [] {
      HandleKeepsHeldRight(s, rs[0]);
      RunKeepsHeldRight(Handle(s, rs[0]), rs[1..], s');
    }
  }

  lemma StopsInOrder(s: Sys)
    requires Inv(s) && StopsHeldRight(s.orders, s.book.stops)
    ensures HeldInOrder(s.book.stops.stopBids, true) && HeldInOrder(s.book.stops.stopAsks, false)
  {
    assert forall k :: 0 <= k < |s.book.stops.stopBids| ==> HeldAt(s.orders, s.book.stops.stopBids[k], true);
    assert forall k :: 0 <= k < |s.book.stops.stopAsks| ==> HeldAt(s.orders, s.book.stops.stopAsks[k], false);
  }

  /** A market price set from outside, in any reachable state. */
  lemma MarketPriceReleases(rs: seq<Request>, s: Sys, price: nat)
    requires Reaches(START, rs, s) && price != MARKET_ORDER_PRICE
    ensures var s' := Handle(s, MarketPriceReq(price));
            var sb, sb' := s.book.stops, s'.book.stops;
            && s' == s.(book := s.book.(stops := sb')) && sb'.marketPrice == price
            && if sb.marketPrice == 0 || price > sb.marketPrice then
                 && sb'.stopAsks == sb.stopAsks && sb'.stopBids == Staying(sb.stopBids, price)
                 && sb'.pending == sb.pending + Trackers(Leaving(sb.stopBids, price))
               else if price < sb.marketPrice then
                 && sb'.stopBids == sb.stopBids && sb'.stopAsks == Staying(sb.stopAsks, price)
                 && sb'.pending == sb.pending + Trackers(Leaving(sb.stopAsks, price))
               else s' == s
  {
    hide Inv, StopsHeldRight, HeldInOrder, Matching.SetMarketPrice, Staying, Leaving;
    StartHasInv();
    StartIsRight();
    RunKeepsInv(START, rs, s);
    RunKeepsHeldRight(START, rs, s);
    StopsInOrder(s);
    PriceMovesOneSide(s.book.stops, price);
    PriceReleases(s.book.stops, price);
  }

  lemma StartIsRight()
    ensures StopsHeldRight(START.orders, START.book.stops)
  {
  }

  // ---- A new stop order ----

  /** Joining behind every order that is not after it. */
  ghost predicate JoinedBy(stops': seq<Entry>, stops: seq<Entry>, e: Entry) {
    exists k :: 0 <= k <= |stops| && stops' == stops[..k] + [e] + stops[k..]
                && (forall j :: 0 <= j < k ==> !e.key.Less(stops[j].key))
                && (k < |stops| ==> e.key.Less(stops[k].key))
  }

  /** The book with one more stop order on its side, and no other change. */
  ghost predicate StopJoined(held: Book, b: Book, isBuy: bool, e: Entry) {
    && held == b.(stops := held.stops)
    && if isBuy then held.stops == b.stops.(stopBids := held.stops.stopBids)
                     && JoinedBy(held.stops.stopBids, b.stops.stopBids, e)
       else held.stops == b.stops.(stopAsks := held.stops.stopAsks)
            && JoinedBy(held.stops.stopAsks, b.stops.stopAsks, e)
  }

  lemma InsertJoins(stops: seq<Entry>, e: Entry)
    ensures JoinedBy(Insert(stops, e), stops, e)
  {
    var k := InsertPos(stops, e.key);
    assert Insert(stops, e) == stops[..k] + [e] + stops[k..];
  }

  /** A new stop order whose price the market has not reached is accepted unfilled and held at its
      stop price; when nothing is pending, nothing else happens. */
  lemma UnreachedStopIsHeld(s: Sys, id: OrderId, order: Order, aon: bool, ioc: bool)
    requires order.qty > 0 && order.stopPrice != 0 && s.book.stops.marketPrice != MARKET_ORDER_PRICE
    requires !Reached(ComparablePrice(order.isBuy, order.stopPrice), s.book.stops.marketPrice)
    requires s.book.stops.pending == []
    ensures var r := AddReq(id, order, aon, ioc);
            var s' := Handle(s, r);
            var e := Entry(ComparablePrice(order.isBuy, order.stopPrice), Tracker(id, order.qty, aon, ioc));
            && Emitted(s, r) == [AcceptCb(id, 0), BookUpdateCb]
            && s'.orders == s.orders[id := order.Accept()]
            && StopJoined(s'.book, s.book, order.isBuy, e)
  {
    hide Insert, JoinedBy, Reached;
    var orders := s.orders[id := order];
    var t := Tracker(id, order.qty, aon, ioc);
    HeldExactlyWhen(orders, id, s.book.stops.marketPrice);
    var b := HoldStop(orders, s.book, t);
    InsertJoins(s.book.stops.stopBids, Entry(ComparablePrice(order.isBuy, order.stopPrice), t));
    InsertJoins(s.book.stops.stopAsks, Entry(ComparablePrice(order.isBuy, order.stopPrice), t));
    assert SubmitPending(orders, b) == Submitted(b, [], []);
    TwoCallbacks(AcceptCb(id, 0));
    ThenBookUpdate(orders, AcceptCb(id, 0));
  }

  lemma TwoCallbacks(cb: Callback)
    ensures [cb] + [] + [BookUpdateCb] == [cb, BookUpdateCb]
  {
  }

  /** Whatever is pending: before anything else happens the order is held, and told of as unfilled. */
  lemma UnreachedStopJoins(s: Sys, id: OrderId, order: Order, aon: bool, ioc: bool)
    requires order.qty > 0 && order.stopPrice != 0 && s.book.stops.marketPrice != MARKET_ORDER_PRICE
    requires !Reached(ComparablePrice(order.isBuy, order.stopPrice), s.book.stops.marketPrice)
    ensures var r, orders := AddReq(id, order, aon, ioc), s.orders[id := order];
            var e := Entry(ComparablePrice(order.isBuy, order.stopPrice), Tracker(id, order.qty, aon, ioc));
            exists held: Book ::
              && StopJoined(held, s.book, order.isBuy, e)
              && Handle(s, r).book == SubmitPending(orders, held).book
              && Emitted(s, r) == [AcceptCb(id, 0)] + SubmitPending(orders, held).fills + [BookUpdateCb]
  {
    hide Insert, JoinedBy, Reached, SubmitPending;
    var orders := s.orders[id := order];
    var t := Tracker(id, order.qty, aon, ioc);
    HeldExactlyWhen(orders, id, s.book.stops.marketPrice);
    InsertJoins(s.book.stops.stopBids, Entry(ComparablePrice(order.isBuy, order.stopPrice), t));
    InsertJoins(s.book.stops.stopAsks, Entry(ComparablePrice(order.isBuy, order.stopPrice), t));
    var e := Entry(ComparablePrice(order.isBuy, order.stopPrice), t);
    var held := HoldStop(orders, s.book, t);
    assert StopJoined(held, s.book, order.isBuy, e);
    assert Emitted(s, AddReq(id, order, aon, ioc))
        == [AcceptCb(id, 0)] + SubmitPending(orders, held).fills + [BookUpdateCb];
    assert Handle(s, AddReq(id, order, aon, ioc)).book == SubmitPending(orders, held).book;
  }

  /** A stop order whose price the market has reached, or any order without a market price, is
      matched at once: the accept callback tells of its first match. */
  lemma ReachedStopIsMatched(s: Sys, id: OrderId, order: Order, t: Tracker)
    requires Fresh(s, id, order, t)
    requires || order.stopPrice == 0 || s.book.stops.marketPrice == MARKET_ORDER_PRICE
             || Reached(ComparablePrice(order.isBuy, order.stopPrice), s.book.stops.marketPrice)
    ensures var orders := s.orders[id := order];
            var m := MatchOrder(orders, t, order.price, s.book.Side(!order.isBuy), s.book.stops);
            [AcceptCb(id, FillsOf(m.fills, id))] + m.fills <= Emitted(s, AddReq(id, order, t.aon, t.ioc))
  {
    hide Fresh, Reached, Matching.MatchOrder, Add;
    HeldExactlyWhen(s.orders[id := order], id, s.book.stops.marketPrice);
    AcceptTellsFirstMatch(s, id, order, t);
  }
}
