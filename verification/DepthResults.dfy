/** The depth built from callbacks alone shows the book after every request, over whole runs. */
module DepthResults {
  import opened Prices
  import opened Orders
  import opened Books
  import opened Matching
  import opened Accounting
  import opened BookRuns
  import opened Cascade
  import opened Options
  import opened DepthSpec
  import opened DepthRuns
  import opened DepthCascade
  import opened Requests
  import opened EngineSteps
  import opened System
  import opened RequestRuns
  import opened RequestInvariants
  import opened Results
  import opened DepthRequests
  import opened DepthReplace
  import opened DepthIoc

  /** What the cascade at the end of a request drops of immediate-or-cancel stop orders. No callback
      tells of it. */
  function CascadeDrops(s: Sys, r: Request): seq<Tracker> {
    match r
    case AddReq(id, order, aon, ioc) =>
      var orders, t := s.orders[id := order], Tracker(id, order.qty, aon, ioc);
      if order.qty == 0 then []
      else if Held(orders, id, s.book.stops.marketPrice) then SubmitPending(orders, HoldStop(orders, s.book, t)).dropped
      else SubmitPending(orders, AddOrder(orders, s.book, t, order.price).book).dropped
    case ReplaceReq(id, delta, newPrice) => Replace(s.orders, s.book, id, delta, newPrice).dropped
    case _ => []
  }

  /** Nothing is left of the new order and dropped; or it is a market order, or alone at its price. */
  predicate FollowedAdd(s: Sys, id: OrderId, order: Order, aon: bool, ioc: bool) {
    var orders, t := s.orders[id := order], Tracker(id, order.qty, aon, ioc);
    || order.qty == 0 || Held(orders, id, s.book.stops.marketPrice)
    || !ioc || AddOrder(orders, s.book, t, order.price).inbound.openQty == 0
    || order.price == MARKET_ORDER_PRICE
    || LevelOf(s.orders, BookLive(s.book), order.isBuy, order.price).count == 0
  }

  /** A replacement the depth can follow, of an order that is there. */
  predicate FollowedReplace(s: Sys, id: OrderId, delta: int, newPrice: nat) {
    var side := s.book.Side(IsBuy(s.orders, id));
    var k := FindOnMarket(s.orders, s.book, id);
    k < |side| && id in s.orders ==>
      Followed(s.orders[id], ClipDelta(delta, side[k].tracker.openQty), if newPrice == 0 then s.orders[id].price
               else newPrice)
  }

  /** The depth follows the callbacks of the order that the request is about. */
  predicate Followable(s: Sys, r: Request) {
    && (r.AddReq? ==> FollowedAdd(s, r.id, r.order, r.aon, r.ioc))
    && (r.ReplaceReq? ==> FollowedReplace(s, r.id, r.delta, r.newPrice))
  }

  /** The requests the depth follows. */
  ghost predicate KeepsDepth(s: Sys, r: Request) {
    Followable(s, r) && AllMarket(OrdersAt(s, r), CascadeDrops(s, r))
  }

  lemma NoRemainder(orders: OrderMap, b: Book, t: Tracker, price: nat)
    ensures var a := AddOrder(orders, b, t, price);
            && (a.inbound.openQty == 0 ==> a.dropped == [])
            && (a.dropped != [] ==> a.dropped == [a.inbound] && a.inbound.openQty > 0 && a.inbound.ioc)
  {
    hide Matching.MatchOrder, Matching.CheckDeferred, Insert;
  }

  /** A new order that is not held: its remainder shows no limit order, or it is alone. */
  lemma AddedKeepsDepth(s: Sys, id: OrderId, order: Order, t: Tracker, d: AbsDepth)
    requires Fresh(s, id, order, t) && Shows(d, s.orders, s.book) && FollowedAdd(s, id, order, t.aon, t.ioc)
    requires !Held(s.orders[id := order], id, s.book.stops.marketPrice)
    ensures var orders := s.orders[id := order];
            var a := AddOrder(orders, s.book, t, order.price);
            var r := SubmitPending(orders, a.book);
            Folded(d, orders, AddOutcome(order.qty, a, r).cbs, r.book) <==> AllMarket(orders, r.dropped)
  {
    hide Inv, Shows, Folded, Matching.AddOrder, Matching.SubmitPending, LevelOf;
    var orders := s.orders[id := order];
    var v := Seen(orders, s.book, [t]);
    var a := AddOrder(orders, s.book, t, order.price);
    NewOrderComing(s, id, order, t);
    AddedInbound(v, s.book, t);
    NoRemainder(orders, s.book, t, order.price);
    if a.dropped == [] || order.price == MARKET_ORDER_PRICE {
      assert forall k :: 0 <= k < |a.dropped| ==> a.dropped[k].ptr == id;
      AddedShows(s, id, order, t, d);
    } else {
      RemainderShows(s, id, order, t, d);
    }
  }

  lemma AddKeepsDepth(s: Sys, id: OrderId, order: Order, aon: bool, ioc: bool, d: AbsDepth)
    requires Inv(s) && Proper(s, AddReq(id, order, aon, ioc)) && Shows(d, s.orders, s.book)
    requires FollowedAdd(s, id, order, aon, ioc)
    ensures var out := Add(s.orders[id := order], s.book, id, aon, ioc);
            Folded(d, s.orders[id := order], out.cbs, out.book) <==>
                AllMarket(s.orders[id := order], CascadeDrops(s, AddReq(id, order, aon, ioc)))
  {
    hide AllMarket, Matching.SubmitPending, Matching.AddOrder, FollowedAdd, Folded, Inv, Shows, MeetsNone, Fresh;
    var orders := s.orders[id := order];
    var t := Tracker(id, order.qty, aon, ioc);
    if order.qty > 0 {
      IsFresh(s, id, order, aon, ioc);
    }
    if order.qty == 0 {
      NewOrderUnseen(s, id, order, d);
      TwoCallbacks(d, orders, RejectCb(id), RejectCb(id));
      RejectedFolds(d, orders, RejectCb(id), s.book);
    } else if Held(orders, id, s.book.stops.marketPrice) {
      EmptyParts(SubmitPending(orders, HoldStop(orders, s.book, t)).dropped, [], [], []);
      HeldShows(s, id, order, t, d);
    } else {
      AddedKeepsDepth(s, id, order, t, d);
    }
  }

  lemma RejectedFolds(d: AbsDepth, orders: OrderMap, cb: Callback, b: Book)
    requires Shows(d, orders, b) && (cb.RejectCb? || cb.CancelRejectCb? || cb.ReplaceRejectCb?)
    ensures Folded(d, orders, [cb], b) && AllMarket(orders, [])
  {
    TwoCallbacks(d, orders, cb, cb);
  }

  lemma CancelKeepsDepth(s: Sys, id: OrderId, d: AbsDepth)
    requires Inv(s) && Shows(d, s.orders, s.book)
    ensures var out := Cancel(s.orders, s.book, id); Folded(d, s.orders, out.cbs, out.book)
  {
    hide Shows, Folded, Requests.FindOnMarket, Inv;
    var buy := IsBuy(s.orders, id);
    var k := FindOnMarket(s.orders, s.book, id);
    if k < |s.book.Side(buy)| {
      CancelledShows(s, buy, k, s.book.Side(buy)[k].tracker, Without(s.book, buy, k), d);
    } else {
      RejectedFolds(d, s.orders, CancelRejectCb(id), s.book);
    }
  }

  /** A replacement the depth follows turns no market order into a limit order, or back. */
  lemma KindKept(s: Sys, buy: bool, k: nat, t: Tracker, b: Book, d: int, price: nat, orders: OrderMap, v: View,
                 ts: seq<Tracker>)
    requires Replaced(s, buy, k, t, b, d, price, orders, v)
    requires t.ptr in s.orders && Followed(s.orders[t.ptr], d, price)
    ensures AllMarket(s.orders, ts) <==> AllMarket(orders, ts)
  {
    ReplacedOrder(s, buy, k, t, b, d, price, orders, v);
    forall i | 0 <= i < |ts|
      ensures PriceOf(orders, ts[i].ptr) == MARKET_ORDER_PRICE <==> PriceOf(s.orders, ts[i].ptr) == MARKET_ORDER_PRICE
    {
    }
  }

  lemma TakenKeepsDepth(s: Sys, buy: bool, k: nat, t: Tracker, d: int, price: nat, dep: AbsDepth)
    requires k < |s.book.Side(buy)| && TakenOut(s, buy, k, t, Without(s.book, buy, k)) && t.openQty + d >= 0
    requires Shows(dep, s.orders, s.book)
    requires PriceOf(s.orders, t.ptr) != MARKET_ORDER_PRICE ==> price != MARKET_ORDER_PRICE
    requires t.ptr in s.orders && Followed(s.orders[t.ptr], d, price)
    ensures var out := ReplaceTaken(s.orders, Without(s.book, buy, k), t, d, price);
            Folded(dep, s.orders, out.cbs, out.book) <==> AllMarket(s.orders, out.dropped)
  {
    hide AllMarket, Folded, Matching.AddOrder, Matching.SubmitPending, Inv, Shows;
    var b := Without(s.book, buy, k);
    var orders := ApplyCallback(s.orders, ReplaceCb(t.ptr, t.openQty, d, price));
    var v := Seen(s.orders, s.book).(denv := orders);
    KindKept(s, buy, k, t, b, d, price, orders, v, ReplaceTaken(s.orders, b, t, d, price).dropped);
    if t.openQty + d == 0 {
      EmptyParts(SubmitPending(s.orders, b).dropped, [], [], []);
      EmptyingShows(s, buy, k, t, b, d, price, orders, v, dep);
    } else {
      ResubmittingShows(s, buy, k, t, b, d, price, orders, v, dep);
    }
  }

  lemma ReplaceKeepsDepth(s: Sys, id: OrderId, delta: int, newPrice: nat, d: AbsDepth)
    requires Inv(s) && id in s.orders && Shows(d, s.orders, s.book) && FollowedReplace(s, id, delta, newPrice)
    ensures var out := Replace(s.orders, s.book, id, delta, newPrice);
            Folded(d, s.orders, out.cbs, out.book) <==> AllMarket(s.orders, out.dropped)
  {
    hide Shows, AllMarket, ReplaceTaken, Inv, Folded;
    var buy := IsBuy(s.orders, id);
    var k := FindOnMarket(s.orders, s.book, id);
    if k < |s.book.Side(buy)| {
      var t := s.book.Side(buy)[k].tracker;
      FindsExactlyResting(s, id, k);
      TakenKeepsDepth(s, buy, k, t, ClipDelta(delta, t.openQty), if newPrice == 0 then PriceOf(s.orders, id)
                      else newPrice, d);
    } else {
      RejectedFolds(d, s.orders, ReplaceRejectCb(id), s.book);
    }
  }

  lemma MarketPriceKeepsDepth(s: Sys, price: nat, d: AbsDepth)
    requires Shows(d, s.orders, s.book)
    ensures Folded(d, s.orders, [], SetMarket(s.book, price))
  {
    var b' := SetMarket(s.book, price);
    forall w: Weight
      ensures Sum(w, BookLive(s.book)) == Sum(w, BookLive(b'))
    {
      MarketPriceKeepsStops(w, s.book.stops, price);
      SumBookLive(w, s.book);
      SumBookLive(w, b');
    }
    AgreesWithSame(d, s.orders, BookLive(s.book), BookLive(b'));
  }

  lemma HandledOrders(s: Sys, r: Request)
    ensures ApplyAll(OrdersAt(s, r), Emitted(s, r)) == Handle(s, r).orders
    ensures r.AddReq? ==> Handle(s, r).book == Add(OrdersAt(s, r), s.book, r.id, r.aon, r.ioc).book
    ensures r.CancelReq? ==> Handle(s, r).book == Cancel(s.orders, s.book, r.id).book
    ensures r.ReplaceReq? ==> Handle(s, r).book == Replace(s.orders, s.book, r.id, r.delta, r.newPrice).book
  {
    hide Add, Cancel, Replace;
  }

  /** When the depth follows the callbacks about the order itself, folding a whole request over a
      depth that shows the book shows the book afterwards if and only if the cascade drops no limit
      order: every lookup finds its level then, and no counter goes below zero. */
  lemma RequestFollowedExactlyWhen(s: Sys, r: Request, d: AbsDepth)
    requires Inv(s) && Proper(s, r) && Followable(s, r) && Shows(d, s.orders, s.book)
    ensures Folded(d, OrdersAt(s, r), Emitted(s, r), Handle(s, r).book) <==>
            AllMarket(OrdersAt(s, r), CascadeDrops(s, r))
  {
    hide Inv, Shows, Folded, Handle, FollowedAdd, FollowedReplace, Add, Cancel, Replace;
    HandledOrders(s, r);
    match r
    case AddReq(id, order, aon, ioc) => AddKeepsDepth(s, id, order, aon, ioc, d);
    case CancelReq(id) => CancelKeepsDepth(s, id, d);
    case ReplaceReq(id, delta, newPrice) => ReplaceKeepsDepth(s, id, delta, newPrice, d);
    case MarketPriceReq(price) => MarketPriceHandled(s, price, d);
  }

  lemma MarketPriceHandled(s: Sys, price: nat, d: AbsDepth)
    requires Shows(d, s.orders, s.book)
    ensures Folded(d, s.orders, [], Handle(s, MarketPriceReq(price)).book)
  {
    MarketPriceKeepsDepth(s, price, d);
  }

  lemma RequestKeepsDepth(s: Sys, r: Request, d: AbsDepth)
    requires Inv(s) && Proper(s, r) && KeepsDepth(s, r) && Shows(d, s.orders, s.book)
    ensures Folded(d, OrdersAt(s, r), Emitted(s, r), Handle(s, r).book)
    ensures ApplyAll(OrdersAt(s, r), Emitted(s, r)) == Handle(s, r).orders
  {
    hide Inv, Proper, Shows, Folded, Handle, Followable, AllMarket, CascadeDrops, Emitted, OrdersAt;
    HandledOrders(s, r);
    RequestFollowedExactlyWhen(s, r, d);
  }

  /** The depth after a whole run of requests. */
  function DepthAfter(d: AbsDepth, s: Sys, rs: seq<Request>): Option<AbsDepth>
    decreases |rs|
  {
    if rs == [] then Some(d)
    else match FoldDepth(d, OrdersAt(s, rs[0]), Emitted(s, rs[0]))
      case None => None
      case Some(d') => DepthAfter(d', Handle(s, rs[0]), rs[1..])
  }

  ghost predicate AllKeepDepth(s: Sys, rs: seq<Request>)
    decreases |rs|
  {
    rs == [] || (KeepsDepth(s, rs[0]) && AllKeepDepth(Handle(s, rs[0]), rs[1..]))
  }

  lemma {:induction false} RunKeepsDepth(s: Sys, rs: seq<Request>, s': Sys, d: AbsDepth)
    requires Inv(s) && Reaches(s, rs, s') && AllKeepDepth(s, rs) && Shows(d, s.orders, s.book)
    ensures var r := DepthAfter(d, s, rs); r.Some? && Shows(r.value, s'.orders, s'.book)
    decreases |rs|
  {
    if rs != [] {
      HandleKeepsInv(s, rs[0]);
      RequestKeepsDepth(s, rs[0], d);
      RunKeepsDepth(Handle(s, rs[0]), rs[1..], s', FoldDepth(d, OrdersAt(s, rs[0]), Emitted(s, rs[0])).value);
    }
  }

  const NO_DEPTH := AbsDepth(DepthSide(map[], 0), DepthSide(map[], 0))

  lemma StartShows()
    ensures Shows(NO_DEPTH, START.orders, START.book)
  {
  }

  /** From an empty book and an empty depth, the depth always shows the book. */
  lemma DepthShowsBook(rs: seq<Request>, s: Sys)
    requires Reaches(START, rs, s) && AllKeepDepth(START, rs)
    ensures var r := DepthAfter(NO_DEPTH, START, rs); r.Some? && Shows(r.value, s.orders, s.book)
  {
    StartHasInv();
    StartShows();
    RunKeepsDepth(START, rs, s, NO_DEPTH);
  }

  // ---- What a caller can check before the request ----

  predicate NoIocLimit(env: OrderMap, ts: seq<Tracker>) {
    forall k :: 0 <= k < |ts| ==> ts[k].ioc ==> PriceOf(env, ts[k].ptr) == MARKET_ORDER_PRICE
  }

  /** No immediate-or-cancel limit order is held back by its stop price or waiting to be submitted;
      a new order is none, or no stop order and alone at its price. */
  predicate CanFollow(s: Sys, r: Request) {
    && NoIocLimit(OrdersAt(s, r), StopLive(s.book.stops))
    && (r.AddReq? ==>
         || !r.ioc || r.order.price == MARKET_ORDER_PRICE
         || (r.order.stopPrice == 0 && LevelOf(s.orders, BookLive(s.book), r.order.isBuy, r.order.price).count == 0))
    && (r.ReplaceReq? ==> FollowedReplace(s, r.id, r.delta, r.newPrice))
  }

  lemma {:induction false} NoIocLimitCounts(env: OrderMap, ts: seq<Tracker>)
    requires NoIocLimit(env, ts)
    ensures Sum(IocLimit(env), ts) == 0
  {
    if ts != [] {
      NoIocLimitCounts(env, ts[1..]);
    }
  }

  lemma NothingDropped(env: OrderMap, ts: seq<Tracker>)
    requires IocRemainders(ts) && Sum(IocLimit(env), ts) == 0
    ensures AllMarket(env, ts)
  {
    forall k | 0 <= k < |ts|
      ensures PriceOf(env, ts[k].ptr) == MARKET_ORDER_PRICE
    {
      SumAtLeast(IocLimit(env), ts, k);
    }
  }

  lemma StopsHaveNone(env: OrderMap, sb: StopBook)
    requires NoIocLimit(env, StopLive(sb))
    ensures StopSum(IocLimit(env), sb) == 0
  {
    NoIocLimitCounts(env, StopLive(sb));
    Sum3(IocLimit(env), Trackers(sb.stopBids), Trackers(sb.stopAsks), sb.pending);
  }

  lemma RestingHaveNone(v: View, s: seq<Entry>, buySide: bool, env: OrderMap)
    requires SideOk(v, s, buySide)
    ensures Sum(IocLimit(env), Trackers(s)) == 0
  {
    forall k | 0 <= k < |s|
      ensures !Trackers(s)[k].ioc
    {
      assert Resting(v, s[k], buySide);
    }
    NoIocLimitCounts(env, Trackers(s));
  }

  lemma CascadeDropsNone(v: View, b: Book, env: OrderMap)
    requires QueueOk(v, b, []) && StopSum(IocLimit(env), b.stops) == 0
    ensures AllMarket(env, SubmitPending(v.env, b).dropped)
  {
    hide Matching.SubmitPending;
    RestingHaveNone(v, b.bids, true, env);
    RestingHaveNone(v, b.asks, false, env);
    SubmitPendingKeeps(v, b, 0, IocLimit(env));
    SubmitPendingDropsIoc(v.env, b);
    NothingDropped(env, SubmitPending(v.env, b).dropped);
  }

  lemma AddedDropsNone(v: View, b: Book, t: Tracker, env: OrderMap)
    requires Coming(v, b, t) && StopSum(IocLimit(env), b.stops) == 0
    ensures AllMarket(env, SubmitPending(v.env, AddOrder(v.env, b, t, PriceOf(v.denv, t.ptr)).book).dropped)
  {
    hide Matching.AddOrder, Matching.SubmitPending, QueueOk;
    AddedIsQueue(v, b, t);
    AddOrderKeepsStopSum(v, b, t, IocLimit(env));
    CascadeDropsNone(v, AddOrder(v.env, b, t, PriceOf(v.denv, t.ptr)).book, env);
  }

  lemma AddCanBeFollowed(s: Sys, id: OrderId, order: Order, aon: bool, ioc: bool)
    requires Inv(s) && Proper(s, AddReq(id, order, aon, ioc)) && CanFollow(s, AddReq(id, order, aon, ioc))
    ensures AllMarket(s.orders[id := order], CascadeDrops(s, AddReq(id, order, aon, ioc)))
  {
    hide Inv, AllMarket, Matching.AddOrder, Matching.SubmitPending, QueueOk, Coming, LevelOf, MeetsNone, Fresh;
    var orders, t := s.orders[id := order], Tracker(id, order.qty, aon, ioc);
    if order.qty > 0 {
      IsFresh(s, id, order, aon, ioc);
    }
    var v := Seen(orders, s.book, [t]);
    StopsHaveNone(orders, s.book.stops);
    if order.qty == 0 {
      AllMarketNone(orders);
    } else if Held(orders, id, s.book.stops.marketPrice) {
      var b := HoldStop(orders, s.book, t);
      HeldStopInBook(s, id, order, t, b);
      PlacedIsQueue(v, s.orders[id := order.Accept()], b, s.retired);
      HeldCountsNone(orders, s.book, t);
      CascadeDropsNone(v, b, orders);
    } else {
      NewOrderComing(s, id, order, t);
      AddedDropsNone(v, s.book, t, orders);
    }
  }

  lemma HeldCountsNone(orders: OrderMap, b: Book, t: Tracker)
    requires t.ptr in orders && (t.ioc ==> PriceOf(orders, t.ptr) == MARKET_ORDER_PRICE)
    requires StopSum(IocLimit(orders), b.stops) == 0
    ensures StopSum(IocLimit(orders), HoldStop(orders, b, t).stops) == 0
  {
    HoldStopCounts(orders, b, t, IocLimit(orders));
  }

  lemma AllMarketNone(env: OrderMap)
    ensures AllMarket(env, [])
  {
  }

  lemma TakenCanBeFollowed(s: Sys, buy: bool, k: nat, t: Tracker, d: int, price: nat)
    requires k < |s.book.Side(buy)| && TakenOut(s, buy, k, t, Without(s.book, buy, k)) && t.openQty + d >= 0
    requires PriceOf(s.orders, t.ptr) != MARKET_ORDER_PRICE ==> price != MARKET_ORDER_PRICE
    requires StopSum(IocLimit(s.orders), s.book.stops) == 0
    ensures AllMarket(s.orders, ReplaceTaken(s.orders, Without(s.book, buy, k), t, d, price).dropped)
  {
    hide Inv, AllMarket, Matching.AddOrder, Matching.SubmitPending, QueueOk, Coming, BookRuns.BookOk, Placed;
    var b := Without(s.book, buy, k);
    var orders := ApplyCallback(s.orders, ReplaceCb(t.ptr, t.openQty, d, price));
    var v := Seen(s.orders, s.book).(denv := orders);
    if t.openQty + d == 0 {
      EmptiedPlaced(s, buy, k, t, b, d, price, orders, v);
      ReplacedViews(s, buy, k, t, b, d, price, orders, v);
      PlacedIsQueue(v, orders, b, s.retired);
      CascadeDropsNone(v, b, s.orders);
      EmptyParts(SubmitPending(s.orders, b).dropped, [], [], []);
    } else {
      var t' := t.(openQty := t.openQty + d);
      ResubmittedComing(s, buy, k, t, b, d, price, orders, v);
      AddedDropsNone(v, b, t', s.orders);
      RestingDropsNone(v, b, t', price);
      var a := AddOrder(s.orders, b, t', price);
      AllMarketNone(s.orders);
      AllMarketParts(s.orders, a.dropped, SubmitPending(s.orders, a.book).dropped);
    }
  }

  lemma RestingDropsNone(v: View, b: Book, t: Tracker, price: nat)
    requires Coming(v, b, t) && !t.ioc && price == PriceOf(v.denv, t.ptr)
    ensures AddOrder(v.env, b, t, price).dropped == []
  {
    hide Matching.AddOrder;
    AddedInbound(v, b, t);
    NoRemainder(v.env, b, t, price);
  }

  /** Whatever passes the check is followed. */
  lemma CheckedIsFollowed(s: Sys, r: Request)
    requires Inv(s) && Proper(s, r) && CanFollow(s, r)
    ensures KeepsDepth(s, r)
  {
    hide Inv, AllMarket, FollowedReplace, LevelOf, ReplaceTaken, Matching.AddOrder, Matching.SubmitPending;
    match r
    case AddReq(id, order, aon, ioc) => AddCanBeFollowed(s, id, order, aon, ioc);
    case CancelReq(id) => AllMarketNone(s.orders);
    case ReplaceReq(id, delta, newPrice) =>
      AllMarketNone(s.orders);
      StopsHaveNone(s.orders, s.book.stops);
      var buy := IsBuy(s.orders, id);
      var k := FindOnMarket(s.orders, s.book, id);
      if k < |s.book.Side(buy)| {
        var t := s.book.Side(buy)[k].tracker;
        FindsExactlyResting(s, id, k);
        TakenCanBeFollowed(s, buy, k, t, ClipDelta(delta, t.openQty), if newPrice == 0 then PriceOf(s.orders, id)
                           else newPrice);
      }
    case MarketPriceReq(price) => AllMarketNone(s.orders);
  }

  ghost predicate AllCanFollow(s: Sys, rs: seq<Request>)
    decreases |rs|
  {
    rs == [] || (CanFollow(s, rs[0]) && AllCanFollow(Handle(s, rs[0]), rs[1..]))
  }

  /** A run in which every request passes the check: the depth shows the book at its end. */
  lemma {:induction false} CheckedRunKeepsDepth(s: Sys, rs: seq<Request>, s': Sys, d: AbsDepth)
    requires Inv(s) && Reaches(s, rs, s') && AllCanFollow(s, rs) && Shows(d, s.orders, s.book)
    ensures var r := DepthAfter(d, s, rs); r.Some? && Shows(r.value, s'.orders, s'.book)
    decreases |rs|
  {
    hide Inv, Proper, CanFollow, KeepsDepth, Shows, Handle, FoldDepth, Emitted, OrdersAt;
    if rs != [] {
      CheckedIsFollowed(s, rs[0]);
      HandleKeepsInv(s, rs[0]);
      RequestKeepsDepth(s, rs[0], d);
      FoldedShows(d, OrdersAt(s, rs[0]), Emitted(s, rs[0]), Handle(s, rs[0]).book);
      CheckedRunKeepsDepth(Handle(s, rs[0]), rs[1..], s', FoldDepth(d, OrdersAt(s, rs[0]), Emitted(s, rs[0])).value);
    }
  }

  lemma FoldedShows(d: AbsDepth, started: OrderMap, cbs: seq<Callback>, b: Book)
    requires Folded(d, started, cbs, b)
    ensures var r := FoldDepth(d, started, cbs); r.Some? && Shows(r.value, ApplyAll(started, cbs), b)
  {
  }
}
