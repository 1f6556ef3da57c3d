/** The remainder of an immediate-or-cancel order is cancelled with quantity zero: when the
    depth comes out right all the same, and an order after which it does not. */
module DepthIoc {
  import opened Prices
  import opened Orders
  import opened Books
  import opened Matching
  import opened Accounting
  import opened BookRuns
  import opened Options
  import opened DepthSpec
  import opened DepthRuns
  import opened DepthCascade
  import opened Trades
  import opened Requests
  import opened OrdersAfter
  import opened EngineSteps
  import opened System
  import opened RequestRuns
  import opened DepthRequests
  import opened DepthReplace

  /** A cancellation that reports no quantity leaves the depth right exactly when it closes
      the last order of its level, or does not show. */
  lemma EmptyCancelFollowedExactlyWhen(env: OrderMap, t: Tracker, others: seq<Tracker>, dep: AbsDepth)
    requires t.ptr in env && t.openQty > 0 && Agrees(dep, env, [t] + others) && NothingIgnored(dep)
    ensures var r := OnCallback(dep, env, CancelCb(t.ptr, 0));
            (r.Some? && Agrees(r.value, env, others))
            <==> env[t.ptr].price == MARKET_ORDER_PRICE ||
                 LevelOf(env, others, env[t.ptr].isBuy, env[t.ptr].price).count == 0
  {
    var buy, price := env[t.ptr].isBuy, env[t.ptr].price;
    OneMoreIsAgreement(dep, env, t, others);
    if price == MARKET_ORDER_PRICE {
      MarketUnseen(dep, env, [t], others);
    } else {
      var l := LevelOf(env, others, buy, price);
      assert dep.Side(buy).At(price) == Level(l.count + 1, l.qty + t.openQty);
      if l.count == 0 {
        EmptyLevelHasNoQty(env, buy, price, others);
        LastClosed(dep, env, others, buy, price, t.openQty);
      } else {
        var r := OnCallback(dep, env, CancelCb(t.ptr, 0));
        assert r.Some? && r.value.Side(buy).At(price) == Level(l.count, l.qty + t.openQty);
      }
    }
  }

  lemma LastClosed(dep: AbsDepth, env: OrderMap, others: seq<Tracker>, buy: bool, price: nat, qty: nat)
    requires OneMore(dep, env, others, buy, price, qty) && price != 0 && LevelOf(env, others, buy, price) == Level(0, 0)
    ensures var r := dep.Side(buy).CloseOrder(price, 0); r.Some? && Agrees(dep.With(buy, r.value), env, others)
  {
    CloseOneMore(dep, env, others, buy, price, qty);
    assert dep.Side(buy).At(price).count == 1;
  }

  // ---- The level of the order's own side ----

  lemma {:induction false} OtherSideHasNoLevel(env: OrderMap, ts: seq<Tracker>, buy: bool, price: nat)
    requires forall k :: 0 <= k < |ts| ==> IsBuy(env, ts[k].ptr) != buy
    ensures LevelOf(env, ts, buy, price) == Level(0, 0)
  {
    if ts != [] {
      OtherSideHasNoLevel(env, ts[1..], buy, price);
    }
  }

  lemma OppositeHasNoLevel(v: View, s: seq<Entry>, buy: bool, price: nat)
    requires SideOk(v, s, !buy)
    ensures LevelOf(v.denv, Trackers(s), buy, price) == Level(0, 0)
  {
    forall k | 0 <= k < |s|
      ensures IsBuy(v.denv, Trackers(s)[k].ptr) != buy
    {
      assert Resting(v, s[k], !buy);
    }
    OtherSideHasNoLevel(v.denv, Trackers(s), buy, price);
  }

  lemma LevelBySide(v: View, b: Book, buy: bool, price: nat, sb: StopBook)
    requires SideOk(v, b.Side(!buy), !buy) && forall w :: StopSum(w, b.stops) == StopSum(w, sb)
    ensures LevelOf(v.denv, BookLive(b), buy, price)
            == LevelOf(v.denv, StopLive(sb) + Trackers(b.Side(buy)), buy, price)
  {
    OneSideAgrees(b, buy, sb);
    OppositeHasNoLevel(v, b.Side(!buy), buy, price);
    LevelOfAppend(v.denv, StopLive(sb) + Trackers(b.Side(buy)), Trackers(b.Side(!buy)), buy, price);
    assert Sum(CountAt(v.denv, buy, price), BookLive(b))
           == Sum(CountAt(v.denv, buy, price), StopLive(sb) + Trackers(b.Side(buy)) + Trackers(b.Side(!buy)));
    assert Sum(QtyAt(v.denv, buy, price), BookLive(b))
           == Sum(QtyAt(v.denv, buy, price), StopLive(sb) + Trackers(b.Side(buy)) + Trackers(b.Side(!buy)));
  }

  /** An order that does not come to rest leaves its own side as it was. */
  lemma DroppedShape(env: OrderMap, b: Book, t: Tracker, price: nat)
    requires t.ioc
    ensures var buy := IsBuy(env, t.ptr);
            var m := MatchOrder(env, t, price, b.Side(!buy), b.stops);
            var a := AddOrder(env, b, t, price);
            m.inbound.ioc ==> a.book.Side(buy) == b.Side(buy) && a.book.Side(!buy) == m.side
  {
  }

  lemma OwnLevelKept(v: View, b: Book, t: Tracker, a: Added)
    requires Submittable(v, b, t) && t.ioc && a == AddOrder(v.env, b, t, PriceOf(v.denv, t.ptr))
    ensures var buy, price := IsBuy(v.denv, t.ptr), PriceOf(v.denv, t.ptr);
            LevelOf(v.denv, BookLive(a.book), buy, price) == LevelOf(v.denv, BookLive(b), buy, price)
  {
    var buy, price := IsBuy(v.denv, t.ptr), PriceOf(v.denv, t.ptr);
    FirstMatchKeeps(v, t, price, b.Side(!buy), !buy, b.stops, 0, LiveOf(0));
    DroppedShape(v.env, b, t, price);
    forall w: Weight
      ensures StopSum(w, a.book.stops) == StopSum(w, b.stops)
    {
      AddOrderKeepsStopSum(v, b, t, w);
    }
    LevelBySide(v, a.book, buy, price, b.stops);
    LevelBySide(v, b, buy, price, b.stops);
  }

  // ---- The submission ----

  lemma CancelTail(dep: AbsDepth, orders: OrderMap, cbs: seq<Callback>, cb: Callback, denv: OrderMap, d1: AbsDepth)
    requires FoldDepth(dep, orders, cbs) == Some(d1) && SameLook(ApplyAll(orders, cbs), denv) && cb.CancelCb?
    ensures FoldDepth(dep, orders, cbs + [cb]) == OnCallback(d1, denv, cb)
  {
    var o := ApplyAll(orders, cbs);
    FoldDepthAppend(dep, orders, cbs, [cb]);
    TwoCallbacks(d1, o, cb, cb);
    assert PriceOf(o, cb.order) == PriceOf(denv, cb.order) && IsBuy(o, cb.order) == IsBuy(denv, cb.order);
  }

  lemma NewOrderLevel(s: Sys, id: OrderId, order: Order)
    requires Inv(s) && id !in s.orders
    ensures LevelOf(s.orders[id := order], BookLive(s.book), order.isBuy, order.price)
            == LevelOf(s.orders, BookLive(s.book), order.isBuy, order.price)
  {
    hide BookLive, LevelOf, Placed, BookOk, Recorded, BookSum;
    forall k | 0 <= k < |BookLive(s.book)| && BookLive(s.book)[k].openQty > 0
      ensures BookLive(s.book)[k].ptr != id
    {
      BookLiveIsLive(s.book, k);
      LiveIsKnown(s.orders, s.book, s.retired, BookLive(s.book)[k].ptr);
    }
    LevelOfLook(s.orders[id := order], s.orders, BookLive(s.book), order.isBuy, order.price);
  }

  lemma FirstFolds(s: Sys, id: OrderId, order: Order, t: Tracker, d: AbsDepth, a: Added)
    requires Fresh(s, id, order, t) && t.ioc && Shows(d, s.orders, s.book)
    requires a == AddOrder(s.orders[id := order], s.book, t, order.price) && 0 < a.inbound.openQty <= order.qty
    requires a.inbound == t.(openQty := a.inbound.openQty) && a.dropped == [a.inbound]
    ensures FoldsTo(AfterAccept(d, order, order.qty - a.inbound.openQty), Seen(s.orders[id := order], s.book, [t]),
                    a.fills, [a.inbound] + BookLive(a.book))
  {
    hide Matching.AddOrder, Agrees, Inv, Coming;
    var orders := s.orders[id := order];
    var v := Seen(orders, s.book, [t]);
    var q := order.qty - a.inbound.openQty;
    NewOrderComing(s, id, order, t);
    NewOrderUnseen(s, id, order, d);
    AcceptedShown(orders, s.book, id, order, t, q, d);
    EmptyParts([t], BookLive(s.book), [], []);
    AddOrderAgrees(v, s.book, t, AfterAccept(d, order, q), []);
    EmptyParts([a.inbound], BookLive(a.book), [], []);
  }

  lemma HeadAndFills(d: AbsDepth, orders: OrderMap, id: OrderId, order: Order, q: nat, fills: seq<Callback>)
    requires NothingIgnored(d) && AllFills(fills)
    ensures var started := orders[id := order];
            var cbs := [AcceptCb(id, q)] + fills;
            && FoldDepth(d, started, cbs) == FoldFills(AfterAccept(d, order, q), started, fills)
            && SameLook(ApplyAll(started, cbs), started)
  {
    var started := orders[id := order];
    AcceptFolds(d, orders, id, order, q);
    FoldDepthAppend(d, started, [AcceptCb(id, q)], fills);
    ApplyAllAppend(started, [AcceptCb(id, q)], fills);
    FoldDepthOfFills(AfterAccept(d, order, q), ApplyAll(started, [AcceptCb(id, q)]), started, fills);
  }

  lemma RemainderCancelled(d: AbsDepth, started: OrderMap, cbs: seq<Callback>, d1: AbsDepth, t: Tracker, b: Book)
    requires FoldDepth(d, started, cbs) == Some(d1) && SameLook(ApplyAll(started, cbs), started)
    requires t.ptr in started && t.openQty > 0 && Agrees(d1, started, [t] + BookLive(b)) && NothingIgnored(d1)
    ensures var r, o := FoldDepth(d, started, cbs + [CancelCb(t.ptr, 0)]), started[t.ptr];
            (r.Some? && Agrees(r.value, started, BookLive(b)))
            <==> o.price == MARKET_ORDER_PRICE || LevelOf(started, BookLive(b), o.isBuy, o.price).count == 0
  {
    CancelTail(d, started, cbs, CancelCb(t.ptr, 0), started, d1);
    EmptyCancelFollowedExactlyWhen(started, t, BookLive(b), d1);
  }

  lemma RemainderFolded(d: AbsDepth, orders: OrderMap, id: OrderId, order: Order, v: View, a: Added)
    requires NothingIgnored(d) && v.denv == orders[id := order] && GoodTrades(v, a.fills + [])
    requires a.inbound.ptr == id && 0 < a.inbound.openQty <= order.qty
    requires FoldsTo(AfterAccept(d, order, order.qty - a.inbound.openQty), v, a.fills, [a.inbound] + BookLive(a.book))
    ensures var started := orders[id := order];
            var r := FoldDepth(d, started, [AcceptCb(id, order.qty - Min(order.qty, a.inbound.openQty))] + a.fills
                               + [CancelCb(id, 0)]);
            (r.Some? && Agrees(r.value, started, BookLive(a.book)))
            <==> order.price == MARKET_ORDER_PRICE || LevelOf(started, BookLive(a.book), order.isBuy, order.price).count
                 == 0
  {
    hide Agrees, GoodTrades, Matching.AddOrder, ApplyCallback, FoldDepth;
    var started := orders[id := order];
    var q := order.qty - a.inbound.openQty;
    GoodTradesAreFills(v, a.fills, []);
    HeadAndFills(d, orders, id, order, q, a.fills);
    RemainderCancelled(d, started, [AcceptCb(id, q)] + a.fills,
                       FoldFills(AfterAccept(d, order, q), started, a.fills).value, a.inbound, a.book);
  }

  /** Accepting, filling and cancelling an order of which something is left: the depth shows
      the book exactly when it is a market order, or nothing else was at its price. */
  lemma RemainderFollowedExactlyWhen(s: Sys, id: OrderId, order: Order, t: Tracker, d: AbsDepth, a: Added)
    requires Fresh(s, id, order, t) && t.ioc && Shows(d, s.orders, s.book)
    requires a == AddOrder(s.orders[id := order], s.book, t, order.price) && a.inbound.openQty > 0
    ensures var orders := s.orders[id := order];
            var r := FoldDepth(d, orders, [AcceptCb(id, order.qty - Min(order.qty, a.inbound.openQty))] + a.fills
                               + [CancelCb(id, 0)]);
            (r.Some? && Agrees(r.value, orders, BookLive(a.book)))
            <==> order.price
                 == MARKET_ORDER_PRICE || LevelOf(s.orders, BookLive(s.book), order.isBuy, order.price).count == 0
  {
    var v := Seen(s.orders[id := order], s.book, [t]);
    NewOrderComing(s, id, order, t);
    AddedInbound(v, s.book, t);
    AddOrderIsGood(v, s.book, t);
    FirstFolds(s, id, order, t, d, a);
    OwnLevelKept(v, s.book, t, a);
    NewOrderLevel(s, id, order);
    EmptyParts(a.fills, [], [], []);
    RemainderFolded(d, s.orders, id, order, v, a);
  }

  // ---- The whole request ----

  lemma CancelKeepsLook(d: AbsDepth, started: OrderMap, cbs: seq<Callback>, d1: AbsDepth, id: OrderId)
    requires FoldDepth(d, started, cbs) == Some(d1) && SameLook(ApplyAll(started, cbs), started) && NothingIgnored(d1)
    ensures var r := FoldDepth(d, started, cbs + [CancelCb(id, 0)]); r.Some? ==> NothingIgnored(r.value)
    ensures SameLook(ApplyAll(started, cbs + [CancelCb(id, 0)]), started)
  {
    var o := ApplyAll(started, cbs);
    FoldDepthAppend(d, started, cbs, [CancelCb(id, 0)]);
    ApplyAllAppend(started, cbs, [CancelCb(id, 0)]);
    TwoCallbacks(d1, o, CancelCb(id, 0), CancelCb(id, 0));
    forall x: OrderId
      ensures PriceOf(ApplyCallback(o, CancelCb(id, 0)), x) == PriceOf(started, x)
      ensures IsBuy(ApplyCallback(o, CancelCb(id, 0)), x) == IsBuy(started, x)
    {
      assert PriceOf(o, x) == PriceOf(started, x);
    }
  }

  lemma NewOrderFills(s: Sys, id: OrderId, order: Order, t: Tracker, a: Added)
    requires Fresh(s, id, order, t) && t.ioc && a == AddOrder(s.orders[id := order], s.book, t, order.price)
    ensures AllFills(a.fills)
    ensures a.inbound.openQty > 0 ==> a.inbound == t.(openQty := a.inbound.openQty) && a.dropped == [a.inbound]
  {
    hide Inv, Matching.AddOrder, BookOk, BareSide, Fresh, Seen;
    var v := Seen(s.orders[id := order], s.book, [t]);
    FreshView(s, id, order, t);
    NewOrderComing(s, id, order, t);
    AddedInbound(v, s.book, t);
    AddOrderIsGood(v, s.book, t);
    assert a.fills + [] == a.fills;
    GoodTradesAreFills(v, a.fills, []);
  }

  lemma FillsFolded(s: Sys, id: OrderId, order: Order, t: Tracker, d: AbsDepth, a: Added) returns (d1: AbsDepth)
    requires Fresh(s, id, order, t) && t.ioc && Shows(d, s.orders, s.book)
    requires a == AddOrder(s.orders[id := order], s.book, t, order.price) && 0 < a.inbound.openQty <= order.qty
    ensures var orders := s.orders[id := order];
            var cbs := [AcceptCb(id, order.qty - a.inbound.openQty)] + a.fills;
            FoldDepth(d, orders, cbs) == Some(d1) && SameLook(ApplyAll(orders, cbs), orders) && NothingIgnored(d1)
  {
    hide Inv, Agrees, Matching.AddOrder, FoldsTo, BookOk, BareSide;
    var orders := s.orders[id := order];
    var v, q := Seen(orders, s.book, [t]), order.qty - a.inbound.openQty;
    NewOrderFills(s, id, order, t, a);
    FirstFolds(s, id, order, t, d, a);
    HeadAndFills(d, s.orders, id, order, q, a.fills);
    FoldedTo(AfterAccept(d, order, q), v, a.fills, [a.inbound] + BookLive(a.book));
    d1 := FoldFills(AfterAccept(d, order, q), orders, a.fills).value;
  }

  /** The same up to the cascade, for an order whose remainder the depth follows. */
  lemma RemainderPrefix(s: Sys, id: OrderId, order: Order, t: Tracker, d: AbsDepth, a: Added)
    requires Fresh(s, id, order, t) && t.ioc && Shows(d, s.orders, s.book)
    requires a == AddOrder(s.orders[id := order], s.book, t, order.price) && 0 < a.inbound.openQty <= order.qty
    requires LevelOf(s.orders, BookLive(s.book), order.isBuy, order.price).count == 0
    ensures var orders := s.orders[id := order];
            var heads := [AcceptCb(id, order.qty - a.inbound.openQty)] + a.fills + [CancelCb(id, 0)];
            var r := FoldDepth(d, orders, heads);
            r.Some? && Shows(r.value, orders, a.book) && SameLook(ApplyAll(orders, heads), orders)
  {
    hide Fresh, Inv, Agrees, Matching.AddOrder, LevelOf, FoldDepth, ApplyAll, SameLook, NothingIgnored;
    var orders := s.orders[id := order];
    var cbs := [AcceptCb(id, order.qty - a.inbound.openQty)] + a.fills;
    RemainderFollowedExactlyWhen(s, id, order, t, d, a);
    var d1 := FillsFolded(s, id, order, t, d, a);
    CancelKeepsLook(d, orders, cbs, d1, id);
  }

  lemma FoldedTo(d: AbsDepth, v: View, fills: seq<Callback>, live: seq<Tracker>)
    requires FoldsTo(d, v, fills, live)
    ensures var r := FoldFills(d, v.denv, fills); r.Some? && NothingIgnored(r.value)
  {
  }

  /** An order of which something is left, alone at its price: the depth follows the request exactly
      when the cascade after it drops no limit order. */
  lemma RemainderShows(s: Sys, id: OrderId, order: Order, t: Tracker, d: AbsDepth)
    requires Fresh(s, id, order, t) && t.ioc && Shows(d, s.orders, s.book)
    requires var a := AddOrder(s.orders[id := order], s.book, t, order.price); a.inbound.openQty > 0
    requires LevelOf(s.orders, BookLive(s.book), order.isBuy, order.price).count == 0
    ensures var orders := s.orders[id := order];
            var a := AddOrder(orders, s.book, t, order.price);
            var r := SubmitPending(orders, a.book);
            Folded(d, orders, AddOutcome(order.qty, a, r).cbs, r.book) <==> AllMarket(orders, r.dropped)
  {
    hide AllMarket, Folded, Inv, Agrees, Matching.AddOrder, Matching.SubmitPending, LevelOf, FoldDepth, ApplyAll, Shows,
         SameLook, Coming;
    var orders := s.orders[id := order];
    var v := Seen(orders, s.book, [t]);
    var a := AddOrder(orders, s.book, t, order.price);
    NewOrderComing(s, id, order, t);
    AddedInbound(v, s.book, t);
    RemainderPrefix(s, id, order, t, d, a);
    AddedIsQueue(v, s.book, t);
    var heads := [AcceptCb(id, order.qty - a.inbound.openQty)] + a.fills + [CancelCb(id, 0)];
    CascadeShows(d, v, orders, heads, FoldDepth(d, orders, heads).value, a.book);
  }

  // ---- What is dropped in the cascade, and orders that are not followed ----

  const BIDDERS: OrderMap := map[1 := Order(true, 100, 5, 0, 0, 0, Accepted), 2 := Order(true, 100, 8, 0, 0, 0, New)]

  function BidLevel(count: nat, qty: nat): AbsDepth {
    AbsDepth(DepthSide(map[100 := Level(count, qty)], 0), DepthSide(map[], 0))
  }

  lemma RemainderFold()
    ensures FoldDepth(BidLevel(1, 5), BIDDERS, [AcceptCb(2, 0), CancelCb(2, 0), BookUpdateCb]) == Some(BidLevel(1, 13))
  {
    var first, second := [AcceptCb(2, 0), CancelCb(2, 0)], [BookUpdateCb];
    var orders := ApplyCallback(BIDDERS, AcceptCb(2, 0));
    TwoCallbacks(BidLevel(1, 5), BIDDERS, AcceptCb(2, 0), CancelCb(2, 0));
    assert BidLevel(1, 5).bid.AddOrder(100, 8).levels == BidLevel(2, 13).bid.levels;
    assert OnCallback(BidLevel(1, 5), BIDDERS, AcceptCb(2, 0)) == Some(BidLevel(2, 13));
    assert orders[2].isBuy && orders[2].price == 100;
    assert BidLevel(2, 13).bid.CloseOrder(100, 0).value.levels == BidLevel(1, 13).bid.levels;
    assert OnCallback(BidLevel(2, 13), orders, CancelCb(2, 0)) == Some(BidLevel(1, 13));
    FoldDepthAppend(BidLevel(1, 5), BIDDERS, first, second);
    UpdateFolds(BidLevel(1, 13), ApplyAll(BIDDERS, first));
    assert first + second == [AcceptCb(2, 0), CancelCb(2, 0), BookUpdateCb];
  }

  /** A bid for 5 rests at 100, and an immediate-or-cancel bid for 8 at the same price finds no
      sale: it is accepted, and cancelled with quantity 0. The book is as before, and the level
      keeps the 8. */
  lemma RemainderOverstatesLevel()
    ensures var b := Book([Entry(ComparablePrice(true, 100), Tracker(1, 5, false, false))], [],
                          StopBook(0, [], [], []));
            var out := Add(BIDDERS, b, 2, false, true);
            out.book == b && FoldDepth(BidLevel(1, 5), BIDDERS, out.cbs) == Some(BidLevel(1, 13))
  {
    hide FoldDepth;
    var b := Book([Entry(ComparablePrice(true, 100), Tracker(1, 5, false, false))], [], StopBook(0, [], [], []));
    var t := Tracker(2, 8, false, true);
    assert MatchRegular(BIDDERS, t, 100, [], [], b.stops) == Match(t, [], b.stops, [], [], false);
    assert AddOrder(BIDDERS, b, t, 100) == Added(b, t, [], false, [t]);
    assert SubmitPending(BIDDERS, b) == Submitted(b, [], []);
    assert Add(BIDDERS, b, 2, false, true).cbs == [AcceptCb(2, 0), CancelCb(2, 0), BookUpdateCb];
    RemainderFold();
  }

  // ---- An order dropped in a cascade ----

  /** A released stop order to buy 5 at 90 at once, or not at all, is pending; a sale of 1 at 200 is
      added. */
  const STOPPED: OrderMap := map[1 := Order(true, 90, 5, 105, 0, 0, Accepted), 2 := Order(false, 200, 1, 0, 0, 0, New)]
  const RELEASED := Tracker(1, 5, false, true)
  const NEW_SALE := Entry(ComparablePrice(false, 200), Tracker(2, 1, false, false))
  const AT_106 := StopBook(106, [], [], [])

  function SaleDepth(asks: map<nat, Level>): AbsDepth {
    AbsDepth(DepthSide(map[90 := Level(1, 5)], 0), DepthSide(asks, 0))
  }

  lemma SaleRests()
    ensures var b := Book([], [], AT_106.(pending := [RELEASED]));
            AddOrder(STOPPED, b, NEW_SALE.tracker, 200)
            == Added(Book([], [NEW_SALE], b.stops), NEW_SALE.tracker, [], false, [])
  {
    var b := Book([], [], AT_106.(pending := [RELEASED]));
    assert MatchRegular(STOPPED, NEW_SALE.tracker, 200, [], [], b.stops)
        == Match(NEW_SALE.tracker, [], b.stops, [], [], false);
    assert Insert([], NEW_SALE) == [NEW_SALE];
  }

  lemma ReleasedIsDropped()
    ensures SubmitPending(STOPPED, Book([], [NEW_SALE], AT_106.(pending := [RELEASED])))
         == Submitted(Book([], [NEW_SALE], AT_106), [], [RELEASED])
  {
    hide Matching.AddOrder;
    var b := Book([], [NEW_SALE], AT_106);
    ReleasedMeetsNone();
    assert [RELEASED][1..] == [];
    assert SubmitAll(STOPPED, b, []) == Submitted(b, [], []);
    assert SubmitAll(STOPPED, b, [RELEASED]) == Submitted(b, [], [RELEASED]);
    assert SubmitPending(STOPPED, b) == Submitted(b, [], []);
  }

  lemma ReleasedMeetsNone()
    ensures var b := Book([], [NEW_SALE], AT_106);
            AddOrder(STOPPED, b, RELEASED, 90) == Added(b, RELEASED, [], false, [RELEASED])
  {
    assert MatchRegular(STOPPED, RELEASED, 90, [], [NEW_SALE], AT_106)
        == Match(RELEASED, [] + [NEW_SALE], AT_106, [], [], false);
  }

  lemma SaleFolds()
    ensures FoldDepth(SaleDepth(map[]), STOPPED, [AcceptCb(2, 0), BookUpdateCb])
         == Some(SaleDepth(map[200 := Level(1, 1)]))
  {
    assert SaleDepth(map[]).ask.AddOrder(200, 1).levels == map[200 := Level(1, 1)];
    TwoCallbacks(SaleDepth(map[]), STOPPED, AcceptCb(2, 0), BookUpdateCb);
  }

  lemma ReleasedIsShown()
    ensures Agrees(SaleDepth(map[]), STOPPED, BookLive(Book([], [], AT_106.(pending := [RELEASED]))))
  {
    assert BookLive(Book([], [], AT_106.(pending := [RELEASED]))) == [RELEASED];
    forall buy, price | price != 0
      ensures SaleDepth(map[]).Side(buy).At(price) == LevelOf(STOPPED, [RELEASED], buy, price)
    {
      SumOne(CountAt(STOPPED, buy, price), RELEASED);
      SumOne(QtyAt(STOPPED, buy, price), RELEASED);
    }
  }

  /** The sale is accepted and rests; the released order finds no sale at 90 and is dropped without a
      callback. The depth that showed its 5 at 90 still shows them. */
  lemma DroppedOverstatesLevel()
    ensures var b := Book([], [], AT_106.(pending := [RELEASED]));
            var out := Add(STOPPED, b, 2, false, false);
            && Agrees(SaleDepth(map[]), STOPPED, BookLive(b))
            && out.cbs == [AcceptCb(2, 0), BookUpdateCb] && out.dropped == [RELEASED]
            && BookLive(out.book) == [NEW_SALE.tracker]
            && FoldDepth(SaleDepth(map[]), STOPPED, out.cbs) == Some(SaleDepth(map[200 := Level(1, 1)]))
            && !Agrees(SaleDepth(map[200 := Level(1, 1)]), STOPPED, BookLive(out.book))
  {
    hide FoldDepth, Matching.AddOrder, Matching.SubmitPending;
    var b := Book([], [], AT_106.(pending := [RELEASED]));
    ReleasedIsShown();
    SaleRests();
    ReleasedIsDropped();
    SaleFolds();
    var out := Add(STOPPED, b, 2, false, false);
    assert out.cbs == [AcceptCb(2, 0)] + [] + [] + [] + [BookUpdateCb];
    assert BookLive(out.book) == [NEW_SALE.tracker];
    SumOne(CountAt(STOPPED, true, 90), NEW_SALE.tracker);
    assert SaleDepth(map[200 := Level(1, 1)]).Side(true).At(90) == Level(1, 5);
    assert LevelOf(STOPPED, BookLive(out.book), true, 90).count == 0;
  }
}
