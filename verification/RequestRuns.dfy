/** Every request keeps the invariant of the system, so every reachable state has it. */
module RequestRuns {
  import opened Prices
  import opened Orders
  import opened Options
  import opened Books
  import opened Matching
  import opened Accounting
  import opened BookRuns
  import opened Cascade
  import opened Trades
  import opened DepthSpec
  import opened DepthCascade
  import opened Requests
  import opened OrdersAfter
  import opened EngineSteps
  import opened System

  datatype Request =
    | AddReq(id: OrderId, order: Order, aon: bool, ioc: bool)
    | CancelReq(id: OrderId)
    | ReplaceReq(id: OrderId, delta: int, newPrice: nat)
    | MarketPriceReq(price: nat)

  /** While no market price is known: an order that is let in faces no market order when it is an
      all-or-none market order, and no all-or-none market order when it is a market order. */
  predicate MeetsNone(orders: OrderMap, b: Book, buy: bool, aon: bool) {
    forall k :: 0 <= k < |BookLive(b)| ==> !MayMeet(orders, BookLive(b)[k], buy, aon)
  }

  predicate MayMeet(orders: OrderMap, u: Tracker, buy: bool, aon: bool) {
    (aon || u.aon) && PriceOf(orders, u.ptr) == MARKET_ORDER_PRICE && IsBuy(orders, u.ptr) != buy
  }

  /** What callers owe the book: an order object is added once and new, requests name known
      orders, while no market price is known an all-or-none market order and another market
      order do not face each other, and the market price is not set to zero. */
  predicate Proper(s: Sys, r: Request) {
    match r
    case AddReq(id, order, aon, _) =>
      && id !in s.orders && order.filled == 0 && order.filledCost == 0 && order.state == New
      && (order.price != MARKET_ORDER_PRICE || order.qty == 0 || s.book.stops.marketPrice != MARKET_ORDER_PRICE
          || MeetsNone(s.orders, s.book, order.isBuy, aon))
    case CancelReq(id) => id in s.orders
    case ReplaceReq(id, _, _) => id in s.orders
    case MarketPriceReq(price) => price != MARKET_ORDER_PRICE
  }

  /** The tracker a cancellation takes out of the book. */
  function Taken(s: Sys, id: OrderId): seq<Tracker> {
    var side := s.book.Side(IsBuy(s.orders, id));
    var k := FindOnMarket(s.orders, s.book, id);
    if k == |side| then [] else [side[k].tracker]
  }

  function Deliver(s: Sys, orders: OrderMap, out: Outcome, taken: seq<Tracker>): Sys {
    Sys(out.book, ApplyAll(orders, out.cbs), s.retired + (taken + out.dropped), s.history + out.cbs)
  }

  /** One request, and the delivery of its callbacks. */
  function Handle(s: Sys, r: Request): Sys {
    match r
    case AddReq(id, order, aon, ioc) =>
      var orders := s.orders[id := order];
      Deliver(s, orders, Add(orders, s.book, id, aon, ioc), [])
    case CancelReq(id) => Deliver(s, s.orders, Cancel(s.orders, s.book, id), Taken(s, id))
    case ReplaceReq(id, delta, newPrice) => Deliver(s, s.orders, Replace(s.orders, s.book, id, delta, newPrice), [])
    case MarketPriceReq(price) => s.(book := SetMarket(s.book, price))
  }

  // ---- The callbacks around the fills ----

  ghost predicate NoFills(cbs: seq<Callback>) {
    forall cb :: cb in cbs ==> !cb.FillCb?
  }

  lemma {:induction false} NoFillsNothing(cbs: seq<Callback>, id: OrderId)
    requires NoFills(cbs)
    ensures FillsOf(cbs, id) == 0 && CostOf(cbs, id) == 0
  {
    if cbs != [] {
      NoFillsNothing(cbs[1..], id);
    }
  }

  lemma CarriesParts(a: seq<Callback>, f1: seq<Callback>, m: seq<Callback>, f2: seq<Callback>, z: seq<Callback>)
    requires NoFills(a) && NoFills(m) && NoFills(z)
    ensures Carries(a + f1 + m + f2 + z, f1 + f2)
  {
    var cbs := a + f1 + m + f2 + z;
    forall id: OrderId
      ensures FillsOf(cbs, id) == FillsOf(f1 + f2, id) && CostOf(cbs, id) == CostOf(f1 + f2, id)
    {
      FillsOfAppend(a + f1 + m + f2, z, id);
      FillsOfAppend(a + f1 + m, f2, id);
      FillsOfAppend(a + f1, m, id);
      FillsOfAppend(a, f1, id);
      FillsOfAppend(f1, f2, id);
      CostOfAppend(a + f1 + m + f2, z, id);
      CostOfAppend(a + f1 + m, f2, id);
      CostOfAppend(a + f1, m, id);
      CostOfAppend(a, f1, id);
      CostOfAppend(f1, f2, id);
      NoFillsNothing(a, id);
      NoFillsNothing(m, id);
      NoFillsNothing(z, id);
    }
    forall i | 0 <= i < |cbs| && cbs[i].FillCb?
      ensures cbs[i] in f1 + f2
    {
      var cb := cbs[i];
      assert cb in a || cb in f1 || cb in m || cb in f2 || cb in z;
    }
  }

  /** One callback, fills, perhaps a cancellation, more fills, and the book update. */
  lemma OrdersThrough(orders: OrderMap, head: Callback, f1: seq<Callback>, m: seq<Callback>, f2: seq<Callback>,
                      id: OrderId, closed: set<OrderId>)
    requires AllFills(f1) && AllFills(f2)
    requires (m == [] && closed == {}) || (m == [CancelCb(id, 0)] && closed == {id})
    ensures After(ApplyCallback(orders, head), f1 + f2, closed, ApplyAll(orders, [head] + f1 + m + f2 + [BookUpdateCb]))
  {
    var o1 := ApplyCallback(orders, head);
    var o2 := ApplyAll(o1, f1);
    var o3 := ApplyAll(o2, m);
    var o4 := ApplyAll(o3, f2);
    ApplyAllAppend(orders, [head] + f1 + m + f2, [BookUpdateCb]);
    ApplyAllAppend(orders, [head] + f1 + m, f2);
    ApplyAllAppend(orders, [head] + f1, m);
    ApplyAllAppend(orders, [head], f1);
    assert ApplyAll(orders, [head]) == o1;
    BookUpdateApplies(o4);
    FillsApply(o1, f1);
    AfterWeaken(o1, f1, closed, o2);
    if m == [] {
      FillsApply(o2, []);
    } else {
      CancelApplies(o2, id, 0);
    }
    FillsApply(o3, f2);
    AfterWeaken(o3, f2, closed, o4);
    AfterCompose(o1, f1, o2, [], closed, o3);
    assert f1 + [] == f1;
    AfterCompose(o1, f1, o3, f2, closed, o4);
  }

  lemma GoodTradesAreFills(v: View, a: seq<Callback>, b: seq<Callback>)
    requires GoodTrades(v, a + b)
    ensures AllFills(a) && AllFills(b)
  {
    forall i | 0 <= i < |a|
      ensures a[i].FillCb?
    {
      assert GoodTrade(v, (a + b)[i]);
    }
    forall i | 0 <= i < |b|
      ensures b[i].FillCb?
    {
      assert GoodTrade(v, (a + b)[|a| + i]);
    }
  }

  // ---- From an engine step to the invariant ----

  /** The orders the engine looked at, and the orders its callbacks start from. */
  ghost predicate Views(v: View, orders: OrderMap) {
    && (forall id :: IsBuy(v.denv, id) == IsBuy(orders, id) && PriceOf(v.denv, id) == PriceOf(orders, id))
    && (forall id :: PriceOf(v.env, id) != MARKET_ORDER_PRICE ==> PriceOf(orders, id) != MARKET_ORDER_PRICE)
  }

  lemma InvAfter(v: View, orders: OrderMap, b: Book, coming: seq<Tracker>, retired: seq<Tracker>,
                 history: seq<Callback>, b': Book,
                 fills: seq<Callback>, dropped: seq<Tracker>, closed: set<OrderId>, orders': OrderMap,
                     cbs: seq<Callback>)
    requires Placed(orders, b, coming, retired) && EngineStep(v, b, coming, b', fills, dropped)
    requires After(orders, fills, closed, orders')
    requires forall id :: id in closed ==> BookSum(LiveOf(id), b') == 0
    requires Recorded(orders, history) && Carries(cbs, fills) && Views(v, orders)
    ensures Inv(Sys(b', orders', retired + dropped, history + cbs))
  {
    PlacedAfter(v, orders, b, coming, retired, b', fills, dropped, closed, orders');
    RecordedAfter(v, orders, b, coming, retired, b', fills, dropped, closed, orders', history, cbs);
    var v' := View(orders', orders', b'.stops.marketPrice != MARKET_ORDER_PRICE, v.bare);
    forall id | BookSum(LiveOf(id), b') > 0
      ensures PriceOf(v'.denv, id) == PriceOf(v.denv, id) && IsBuy(v'.denv, id) == IsBuy(v.denv, id)
      ensures PriceOf(v.env, id) != MARKET_ORDER_PRICE ==> PriceOf(v'.env, id) != MARKET_ORDER_PRICE
    {
      assert BookSum(LiveOf(id), b') + Sum(LiveOf(id), [])
             + Sum(LiveOf(id), retired + dropped) <= (if id in orders' then 1 else 0);
      assert FilledBy(orders[id], orders'[id], FillsOf(fills, id), CostOf(fills, id));
    }
    BookTransfers(v, v', b');
    KnownBook(v', b');
  }

  // ---- Adding an order ----

  /** Nothing is known of an order that was not added. */
  lemma UnknownIsNowhere(orders: OrderMap, b: Book, retired: seq<Tracker>, id: OrderId)
    requires Placed(orders, b, [], retired) && id !in orders
    ensures BookSum(LiveOf(id), b) == 0 && BookSum(OpenOf(id), b) == 0
    ensures Sum(LiveOf(id), retired) == 0 && Sum(OpenOf(id), retired) == 0
  {
    assert BookSum(LiveOf(id), b) + Sum(LiveOf(id), []) + Sum(LiveOf(id), retired) <= 0;
    TotalsRelate(id, 0, b, []);
    NotLiveNotOpen(id, retired);
  }

  lemma NewOrderAt(orders: OrderMap, b: Book, retired: seq<Tracker>, order: Order, t: Tracker, x: OrderId, q: nat)
    requires Placed(orders, b, [], retired) && t.ptr !in orders
    requires t.openQty == order.qty && order.filled == 0 && (order.state == Accepted || order.qty == 0)
    ensures var orders' := orders[t.ptr := order];
            && BookSum(LiveOf(x), b) + Sum(LiveOf(x), [t]) + Sum(LiveOf(x), retired) <= (if x in orders' then 1 else 0)
            && (x in orders' ==>
                orders'[x].qty == BookSum(OpenOf(x), b) + Sum(OpenOf(x), [t]) + orders'[x].filled
                    + Sum(OpenOf(x), retired))
            && (x in orders' && BookSum(LiveOf(x), b) + Sum(LiveOf(x), [t]) > 0 ==> orders'[x].state == Accepted)
            && (x in orders' && BookSum(ExactAon(x, q), b) + Sum(ExactAon(x, q), [t]) + Sum(ExactAon(x, q), retired) > 0
                ==> orders'[x].filled == 0)
  {
    SumOne(LiveOf(x), t);
    SumOne(OpenOf(x), t);
    SumOne(ExactAon(x, q), t);
    if x == t.ptr {
      hide Placed;
      UnknownIsNowhere(orders, b, retired, x);
      TotalsRelate(x, q, b, []);
    } else {
      hide Placed;
      PlacedAt(orders, b, [], retired, x, q);
    }
  }

  /** A new order, before anything happens to it. */
  lemma NewOrderPlaced(orders: OrderMap, b: Book, retired: seq<Tracker>, order: Order, t: Tracker)
    requires Placed(orders, b, [], retired) && t.ptr !in orders
    requires t.openQty == order.qty && order.filled == 0 && (order.state == Accepted || order.qty == 0)
    ensures Placed(orders[t.ptr := order], b, [t], retired)
  {
    var orders' := orders[t.ptr := order];
    forall x: OrderId
      ensures BookSum(LiveOf(x), b) + Sum(LiveOf(x), [t]) + Sum(LiveOf(x), retired) <= (if x in orders' then 1 else 0)
      ensures x in orders' ==>
              orders'[x].qty == BookSum(OpenOf(x), b) + Sum(OpenOf(x), [t]) + orders'[x].filled
              + Sum(OpenOf(x), retired)
      ensures x in orders' && BookSum(LiveOf(x), b) + Sum(LiveOf(x), [t]) > 0 ==> orders'[x].state == Accepted
    {
      NewOrderAt(orders, b, retired, order, t, x, 0);
    }
    forall x: OrderId, q: nat | x in orders' && BookSum(ExactAon(x, q), b) + Sum(ExactAon(x, q), [t])
                                + Sum(ExactAon(x, q), retired) > 0
      ensures orders'[x].filled == 0
    {
      NewOrderAt(orders, b, retired, order, t, x, q);
    }
  }

  lemma NewOrderRecorded(orders: OrderMap, history: seq<Callback>, id: OrderId, order: Order)
    requires Recorded(orders, history) && id !in orders && order.filled == 0 && order.filledCost == 0
    ensures Recorded(orders[id := order], history)
  {
    var orders' := orders[id := order];
    forall i | 0 <= i < |history| && history[i].FillCb?
      ensures Pairs(orders', history[i])
    {
      assert Pairs(orders, history[i]);
    }
  }

  lemma LiveIsKnown(orders: OrderMap, b: Book, retired: seq<Tracker>, id: OrderId)
    requires Placed(orders, b, [], retired) && BookSum(LiveOf(id), b) > 0
    ensures id in orders
  {
    assert BookSum(LiveOf(id), b) + Sum(LiveOf(id), []) + Sum(LiveOf(id), retired) <= (if id in orders then 1 else 0);
  }

  /** Looking at the book through the orders with a new one added. */
  lemma NewOrderView(orders: OrderMap, b: Book, retired: seq<Tracker>, id: OrderId, order: Order)
    requires Placed(orders, b, [], retired) && BookOk(Seen(orders, b), b) && id !in orders
    ensures BookOk(Seen(orders[id := order], b), b)
  {
    hide Placed, SideOk, StopsOk, BookSum, BareSide, BookLive;
    var v := Seen(orders, b);
    var v' := View(orders[id := order], orders[id := order], v.priced, v.bare);
    forall x | BookSum(LiveOf(x), b) > 0
      ensures PriceOf(v'.env, x) == PriceOf(v.env, x) && IsBuy(v'.denv, x) == IsBuy(v.denv, x)
    {
      LiveIsKnown(orders, b, retired, x);
    }
    BookTransfers(v, v', b);
    KnownBook(v', b);
  }

  lemma {:induction false} BareSideFound(orders: OrderMap, ts: seq<Tracker>)
    ensures BareSide(orders, ts).Some? ==>
              exists k :: 0 <= k < |ts| && ts[k].aon && PriceOf(orders, ts[k].ptr) == MARKET_ORDER_PRICE &&
                  BareSide(orders, ts) == Some(IsBuy(orders, ts[k].ptr))
    decreases |ts|
  {
    if ts != [] && !(ts[0].aon && PriceOf(orders, ts[0].ptr) == MARKET_ORDER_PRICE) {
      BareSideFound(orders, ts[1..]);
      if BareSide(orders, ts).Some? {
        var k :| 0 <= k < |ts[1..]| && ts[1..][k].aon && PriceOf(orders, ts[1..][k].ptr) == MARKET_ORDER_PRICE &&
            BareSide(orders, ts) == Some(IsBuy(orders, ts[1..][k].ptr));
        assert ts[k + 1] == ts[1..][k];
      }
    }
  }

  /** What the view of the book with the new order knows of the all-or-none market orders. */
  lemma BareSideWith(orders: OrderMap, b: Book, t: Tracker)
    requires PriceOf(orders, t.ptr) == MARKET_ORDER_PRICE ==> MeetsNone(orders, b, IsBuy(orders, t.ptr), t.aon)
    ensures var side, bare := BareSide(orders, BookLive(b) + [t]), BareSide(orders, BookLive(b));
            && (side == bare || (bare.None? && t.aon && PriceOf(orders, t.ptr) == MARKET_ORDER_PRICE &&
                                 side == Some(IsBuy(orders, t.ptr))))
            && (PriceOf(orders, t.ptr) == MARKET_ORDER_PRICE ==> side != Some(!IsBuy(orders, t.ptr)))
            && (PriceOf(orders, t.ptr) == MARKET_ORDER_PRICE && t.aon ==> side == Some(IsBuy(orders, t.ptr)))
  {
    hide BookLive;
    var ts := BookLive(b);
    BareSideAppend(orders, ts, t);
    BareSideFound(orders, ts);
    if PriceOf(orders, t.ptr) == MARKET_ORDER_PRICE && BareSide(orders, ts).Some? {
      var k :| 0 <= k < |ts| && ts[k].aon && PriceOf(orders, ts[k].ptr) == MARKET_ORDER_PRICE &&
          BareSide(orders, ts) == Some(IsBuy(orders, ts[k].ptr));
      assert !MayMeet(orders, ts[k], IsBuy(orders, t.ptr), t.aon);
    }
  }

  lemma NewOrderMeets(orders: OrderMap, b: Book, t: Tracker)
    requires BookOk(Seen(orders, b), b)
    requires b.stops.marketPrice == MARKET_ORDER_PRICE && PriceOf(orders, t.ptr) == MARKET_ORDER_PRICE ==>
             MeetsNone(orders, b, IsBuy(orders, t.ptr), t.aon)
    ensures BookOk(Seen(orders, b, [t]), b) && Fair(Seen(orders, b, [t]), t)
  {
    hide BookLive, SideOk, StopsOk;
    var v, v' := Seen(orders, b), Seen(orders, b, [t]);
    BareSideAppend(orders, BookLive(b), t);
    BookIsFair(v, b);
    if !v.priced {
      BareSideWith(orders, b, t);
    }
    forall u | u in BookLive(b)
      ensures Fair(v', u)
    {
      var k :| 0 <= k < |BookLive(b)| && BookLive(b)[k] == u;
      if !v.priced && v'.bare != v.bare {
        BareSideIs(v, orders, BookLive(b));
        assert !MayMeet(orders, BookLive(b)[k], IsBuy(orders, t.ptr), t.aon);
      }
    }
    FairSide(v, v', b, true);
    FairSide(v, v', b, false);
    FairWaiters(v, v', b);
  }


  lemma IsComing(v: View, orders: OrderMap, b: Book, t: Tracker, retired: seq<Tracker>)
    requires Placed(orders, b, [t], retired) && BookOk(v, b) && Fair(v, t) && t.openQty > 0 && SidesAgree(v)
    requires BookSum(LiveOf(t.ptr), b) == 0
    ensures Coming(v, b, t)
  {
    forall id: OrderId
      ensures BookSum(LiveOf(id), b) + Sum(LiveOf(id), [t]) <= 1
    {
      assert BookSum(LiveOf(id), b) + Sum(LiveOf(id), [t])
             + Sum(LiveOf(id), retired) <= (if id in orders then 1 else 0);
    }
  }

  /** The remainder of an immediate-or-cancel order is the one that was dropped. */
  lemma AddedInbound(v: View, b: Book, t: Tracker)
    requires Submittable(v, b, t)
    ensures var a := AddOrder(v.env, b, t, PriceOf(v.denv, t.ptr));
            && a.inbound == t.(openQty := a.inbound.openQty) && a.inbound.openQty <= t.openQty
            && (a.inbound.openQty > 0 && a.inbound.ioc ==> a.dropped == [a.inbound])
  {
    FirstMatchKeeps(v, t, PriceOf(v.denv, t.ptr), b.Side(!IsBuy(v.denv, t.ptr)), !IsBuy(v.denv, t.ptr), b.stops, 0,
                    LiveOf(0));
  }

  lemma DroppedIsGone(v: View, orders: OrderMap, b: Book, t: Tracker, retired: seq<Tracker>, b': Book,
                      fills: seq<Callback>, dropped: seq<Tracker>, first: seq<Tracker>, closed: set<OrderId>)
    requires Placed(orders, b, [t], retired) && EngineStep(v, b, [t], b', fills, dropped)
    requires first <= dropped
    requires closed == {} || (first != [] && closed == {first[0].ptr} && first[0].openQty > 0)
    ensures forall id :: id in closed ==> BookSum(LiveOf(id), b') == 0
  {
    hide Sum;
    if closed != {} {
      var id := first[0].ptr;
      assert dropped[0] == first[0];
      SumAtLeast(LiveOf(id), dropped, 0);
      assert Falling(LiveOf(id));
      assert BookSum(LiveOf(id), b) + Sum(LiveOf(id), [t]) + Sum(LiveOf(id), retired) <= 1;
    }
  }

  /** The callbacks of a submission: the head, its fills, a possible cancellation of the
      remainder, the cascade's fills and the book update. */
  lemma SubmissionCallbacks(v: View, orders: OrderMap, b: Book, t: Tracker, retired: seq<Tracker>, started: OrderMap,
                            head: Callback, a: Added, r: Submitted)
    requires Placed(orders, b, [t], retired)
    requires EngineStep(v, b, [t], r.book, a.fills + r.fills, a.dropped + r.dropped)
    requires ApplyCallback(started, head) == orders && !head.FillCb?
    requires a.inbound.ptr == t.ptr && (a.inbound.openQty > 0 && a.inbound.ioc ==> a.dropped == [a.inbound])
    ensures var m := CancelRest(a.inbound);
            var closed: set<OrderId> := if m == [] then {} else {t.ptr};
            var cbs := [head] + a.fills + m + r.fills + [BookUpdateCb];
            && After(orders, a.fills + r.fills, closed, ApplyAll(started, cbs))
            && Carries(cbs, a.fills + r.fills)
            && forall id :: id in closed ==> BookSum(LiveOf(id), r.book) == 0
  {
    var m := CancelRest(a.inbound);
    var closed: set<OrderId> := if m == [] then {} else {t.ptr};
    GoodTradesAreFills(v, a.fills, r.fills);
    hide Placed, EngineStep;
    OrdersThrough(started, head, a.fills, m, r.fills, t.ptr, closed);
    CarriesParts([head], a.fills, m, r.fills, [BookUpdateCb]);
    DroppedIsGone(v, orders, b, t, retired, r.book, a.fills + r.fills, a.dropped + r.dropped, a.dropped, closed);
  }

  /** What is known of a submission and the cascade after it. */
  ghost predicate Submission(v: View, b: Book, t: Tracker, a: Added, r: Submitted) {
    && EngineStep(v, b, [t], r.book, a.fills + r.fills, a.dropped + r.dropped)
    && a.inbound == t.(openQty := a.inbound.openQty) && a.inbound.openQty <= t.openQty
    && (a.inbound.openQty > 0 && a.inbound.ioc ==> a.dropped == [a.inbound])
  }

  lemma IsSubmission(v: View, b: Book, t: Tracker)
    requires Coming(v, b, t)
    ensures var a := AddOrder(v.env, b, t, PriceOf(v.denv, t.ptr)); Submission(v, b, t, a, SubmitPending(v.env, a.book))
  {
    SubmissionStep(v, b, t);
    AddedInbound(v, b, t);
  }

  /** Submitting a placed order, and the cascade, lead back to the invariant. */
  lemma SubmissionInv(v: View, orders: OrderMap, b: Book, t: Tracker, retired: seq<Tracker>, history: seq<Callback>,
                      started: OrderMap, head: Callback, a: Added, r: Submitted)
    requires Placed(orders, b, [t], retired) && Recorded(orders, history) && Views(v, orders)
    requires Submission(v, b, t, a, r)
    requires ApplyCallback(started, head) == orders && !head.FillCb?
    ensures var cbs := [head] + a.fills + CancelRest(a.inbound) + r.fills + [BookUpdateCb];
            Inv(Sys(r.book, ApplyAll(started, cbs), retired + (a.dropped + r.dropped), history + cbs))
  {
    var m := CancelRest(a.inbound);
    var closed: set<OrderId> := if m == [] then {} else {t.ptr};
    var cbs := [head] + a.fills + m + r.fills + [BookUpdateCb];
    SubmissionCallbacks(v, orders, b, t, retired, started, head, a, r);
    InvAfter(v, orders, b, [t], retired, history, r.book, a.fills + r.fills, a.dropped + r.dropped, closed,
             ApplyAll(started, cbs), cbs);
  }

  lemma EmptyParts<T>(a: seq<T>, m: seq<T>, f: seq<T>, z: seq<T>)
    ensures a + [] + m + f + z == a + m + f + z
    ensures a + [] == a && [] + a == a
  {
  }

  lemma CascadeCallbacks(v: View, orders: OrderMap, b: Book, started: OrderMap, head: Callback, id: OrderId,
                         m: seq<Callback>, r: Submitted)
    requires EngineStep(v, b, [], r.book, r.fills, r.dropped)
    requires ApplyCallback(started, head) == orders && !head.FillCb?
    requires m == [] || (m == [CancelCb(id, 0)] && BookSum(LiveOf(id), b) == 0)
    ensures var closed: set<OrderId> := if m == [] then {} else {id};
            var cbs := [head] + m + r.fills + [BookUpdateCb];
            && After(orders, r.fills, closed, ApplyAll(started, cbs))
            && Carries(cbs, r.fills)
            && forall x :: x in closed ==> BookSum(LiveOf(x), r.book) == 0
  {
    var closed: set<OrderId> := if m == [] then {} else {id};
    EmptyParts([head], m, r.fills, [BookUpdateCb]);
    EmptyParts(r.fills, [], [], []);
    GoodTradesAreFills(v, [], r.fills);
    OrdersThrough(started, head, [], m, r.fills, id, closed);
    CarriesParts([head], [], m, r.fills, [BookUpdateCb]);
    assert Falling(LiveOf(id));
  }

  /** The cascade alone leads back to the invariant; the order a cancellation names is gone. */
  lemma CascadeInv(v: View, orders: OrderMap, b: Book, retired: seq<Tracker>, history: seq<Callback>, started: OrderMap,
                   head: Callback, id: OrderId, m: seq<Callback>, r: Submitted)
    requires Placed(orders, b, [], retired) && Recorded(orders, history) && Views(v, orders)
    requires EngineStep(v, b, [], r.book, r.fills, r.dropped)
    requires ApplyCallback(started, head) == orders && !head.FillCb?
    requires m == [] || (m == [CancelCb(id, 0)] && BookSum(LiveOf(id), b) == 0)
    ensures var cbs := [head] + m + r.fills + [BookUpdateCb];
            Inv(Sys(r.book, ApplyAll(started, cbs), retired + r.dropped, history + cbs))
  {
    var closed: set<OrderId> := if m == [] then {} else {id};
    var cbs := [head] + m + r.fills + [BookUpdateCb];
    CascadeCallbacks(v, orders, b, started, head, id, m, r);
    InvAfter(v, orders, b, [], retired, history, r.book, r.fills, r.dropped, closed, ApplyAll(started, cbs), cbs);
  }

  // ---- Adding a stop order that is held back ----

  lemma HoldStopCounts(orders: OrderMap, b: Book, t: Tracker, w: Weight)
    requires t.ptr in orders
    ensures BookSum(w, HoldStop(orders, b, t)) == BookSum(w, b) + WeightOf(w, t)
  {
    var o := orders[t.ptr];
    var e := Entry(ComparablePrice(o.isBuy, o.stopPrice), t);
    SumInsert(w, b.stops.stopBids, e);
    SumInsert(w, b.stops.stopAsks, e);
  }

  lemma InsertWaits(v: View, s: seq<Entry>, e: Entry, buySide: bool)
    requires Sorted(s) && OneSided(s, buySide) && AllWait(v, Trackers(s)) && e.key.buySide == buySide
    requires Waits(v, e.tracker)
    ensures Sorted(Insert(s, e)) && OneSided(Insert(s, e), buySide) && AllWait(v, Trackers(Insert(s, e)))
  {
    InsertKeepsSide(s, e, buySide);
    var k := InsertPos(s, e.key);
    forall i | 0 <= i < |s| + 1
      ensures Waits(v, Trackers(Insert(s, e))[i])
    {
      if i < k {
        assert Waits(v, Trackers(s)[i]);
      } else if i > k {
        assert Waits(v, Trackers(s)[i - 1]);
      }
    }
  }

  lemma HoldStopOk(v: View, orders: OrderMap, b: Book, t: Tracker)
    requires BookOk(v, b) && t.ptr in orders && Waits(v, t)
    ensures BookOk(v, HoldStop(orders, b, t))
  {
    var o := orders[t.ptr];
    var e := Entry(ComparablePrice(o.isBuy, o.stopPrice), t);
    if o.isBuy {
      InsertWaits(v, b.stops.stopBids, e, true);
    } else {
      InsertWaits(v, b.stops.stopAsks, e, false);
    }
  }

  /** An order that came in and now has its place in the book. */
  lemma PlacedInBook(orders: OrderMap, b: Book, t: Tracker, retired: seq<Tracker>, b': Book)
    requires Placed(orders, b, [t], retired)
    requires forall w :: BookSum(w, b') == BookSum(w, b) + WeightOf(w, t)
    ensures Placed(orders, b', [], retired)
  {
    forall w: Weight
      ensures BookSum(w, b') + Sum(w, []) == BookSum(w, b) + Sum(w, [t])
    {
      SumOne(w, t);
    }
    forall x: OrderId
      ensures BookSum(LiveOf(x), b') + Sum(LiveOf(x), []) + Sum(LiveOf(x), retired) <= (if x in orders then 1 else 0)
      ensures x in orders ==>
              orders[x].qty == BookSum(OpenOf(x), b') + Sum(OpenOf(x), []) + orders[x].filled + Sum(OpenOf(x), retired)
      ensures x in orders && BookSum(LiveOf(x), b') + Sum(LiveOf(x), []) > 0 ==> orders[x].state == Accepted
    {
      assert BookSum(LiveOf(x), b) + Sum(LiveOf(x), [t]) + Sum(LiveOf(x), retired) <= (if x in orders then 1 else 0);
      assert x in orders ==>
             orders[x].qty == BookSum(OpenOf(x), b) + Sum(OpenOf(x), [t]) + orders[x].filled + Sum(OpenOf(x), retired);
    }
    forall x: OrderId, q: nat | x in orders && BookSum(ExactAon(x, q), b') + Sum(ExactAon(x, q), [])
                                + Sum(ExactAon(x, q), retired) > 0
      ensures orders[x].filled == 0
    {
      assert BookSum(ExactAon(x, q), b) + Sum(ExactAon(x, q), [t]) + Sum(ExactAon(x, q), retired) > 0;
    }
  }

  lemma PlacedIsQueue(v: View, orders: OrderMap, b: Book, retired: seq<Tracker>)
    requires Placed(orders, b, [], retired) && BookOk(v, b) && SidesAgree(v)
    ensures QueueOk(v, b, [])
  {
    forall x: OrderId
      ensures BookSum(LiveOf(x), b) + Sum(LiveOf(x), []) <= 1
    {
      assert BookSum(LiveOf(x), b) + Sum(LiveOf(x), []) + Sum(LiveOf(x), retired) <= (if x in orders then 1 else 0);
    }
  }

  /** A new order that has been told it is accepted. */
  ghost predicate Fresh(s: Sys, id: OrderId, order: Order, t: Tracker) {
    && Inv(s) && id !in s.orders && order.filled == 0 && order.filledCost == 0 && order.state == New && order.qty > 0
    && t == Tracker(id, order.qty, t.aon, t.ioc) && BookOk(Seen(s.orders[id := order], s.book, [t]), s.book) &&
       Fair(Seen(s.orders[id := order], s.book, [t]), t)
  }

  /** The view of a new order, without what is known of the book. */
  lemma FreshView(s: Sys, id: OrderId, order: Order, t: Tracker)
    requires Fresh(s, id, order, t)
    ensures t == Tracker(id, order.qty, t.aon, t.ioc) && order.qty > 0 && id !in s.orders && order.filled == 0
    ensures var v := Seen(s.orders[id := order], s.book, [t]);
            v.env == v.denv == s.orders[id := order] && v.priced == (s.book.stops.marketPrice != MARKET_ORDER_PRICE)
  {
  }

  lemma IsFresh(s: Sys, id: OrderId, order: Order, aon: bool, ioc: bool)
    requires Inv(s) && Proper(s, AddReq(id, order, aon, ioc)) && order.qty > 0
    ensures Fresh(s, id, order, Tracker(id, order.qty, aon, ioc))
  {
    hide Placed, Recorded, BookOk, Seen, BookLive;
    var t, orders := Tracker(id, order.qty, aon, ioc), s.orders[id := order];
    NewOrderView(s.orders, s.book, s.retired, id, order);
    BookIsOpen(Seen(s.orders, s.book), s.book);
    if order.price == MARKET_ORDER_PRICE && s.book.stops.marketPrice == MARKET_ORDER_PRICE {
      forall k | 0 <= k < |BookLive(s.book)|
        ensures !MayMeet(orders, BookLive(s.book)[k], order.isBuy, aon)
      {
        assert !MayMeet(s.orders, BookLive(s.book)[k], order.isBuy, aon);
        LiveOrderIsKnown(s.orders, s.book, s.retired, k);
      }
    }
    NewOrderMeets(orders, s.book, t);
  }

  lemma LiveOrderIsKnown(orders: OrderMap, b: Book, retired: seq<Tracker>, k: nat)
    requires Placed(orders, b, [], retired) && k < |BookLive(b)| && BookLive(b)[k].openQty > 0
    ensures BookLive(b)[k].ptr in orders
  {
    hide Placed, BookLive;
    var t := BookLive(b)[k];
    SumAtLeast(LiveOf(t.ptr), BookLive(b), k);
    SumBookLive(LiveOf(t.ptr), b);
    LiveIsKnown(orders, b, retired, t.ptr);
  }

  lemma BookIsOpen(v: View, b: Book)
    requires BookOk(v, b)
    ensures forall k :: 0 <= k < |BookLive(b)| ==> BookLive(b)[k].openQty > 0
  {
    var waits := Trackers(b.stops.stopBids) + Trackers(b.stops.stopAsks) + b.stops.pending;
    assert AllWait(v, waits);
    assert BookLive(b) == Trackers(b.bids) + Trackers(b.asks) + waits;
    forall k | 0 <= k < |BookLive(b)|
      ensures BookLive(b)[k].openQty > 0
    {
      var n, m := |b.bids|, |b.asks|;
      if k < n {
        assert BookLive(b)[k] == b.bids[k].tracker;
      } else if k < n + m {
        assert BookLive(b)[k] == b.asks[k - n].tracker;
      } else {
        assert BookLive(b)[k] == waits[k - n - m];
        assert Waits(v, waits[k - n - m]);
      }
    }
  }

  lemma AcceptStarts(orders: OrderMap, id: OrderId, order: Order, q: nat, v: View)
    requires v.env == v.denv == orders[id := order]
    ensures ApplyCallback(orders[id := order], AcceptCb(id, q)) == orders[id := order.Accept()]
    ensures Views(v, orders[id := order.Accept()])
  {
  }

  lemma HeldStopInBook(s: Sys, id: OrderId, order: Order, t: Tracker, b: Book)
    requires Fresh(s, id, order, t) && b == HoldStop(s.orders[id := order], s.book, t)
    ensures Placed(s.orders[id := order.Accept()], b, [], s.retired)
    ensures BookOk(Seen(s.orders[id := order], s.book, [t]), b)
  {
    var orders := s.orders[id := order];
    NewOrderPlaced(s.orders, s.book, s.retired, order.Accept(), t);
    NewOrderView(s.orders, s.book, s.retired, id, order);
    HoldStopOk(Seen(orders, s.book, [t]), orders, s.book, t);
    forall w: Weight
      ensures BookSum(w, b) == BookSum(w, s.book) + WeightOf(w, t)
    {
      HoldStopCounts(orders, s.book, t, w);
    }
    PlacedInBook(s.orders[id := order.Accept()], s.book, t, s.retired, b);
  }

  lemma HeldInv(s: Sys, id: OrderId, order: Order, t: Tracker, b: Book, r: Submitted)
    requires Fresh(s, id, order, t)
    requires Placed(s.orders[id := order.Accept()], b, [], s.retired)
    requires EngineStep(Seen(s.orders[id := order], s.book, [t]), b, [], r.book, r.fills, r.dropped)
    ensures Inv(Deliver(s, s.orders[id := order], Finish(r, [AcceptCb(id, 0)], false, []), []))
  {
    var orders := s.orders[id := order];
    var accepted := s.orders[id := order.Accept()];
    NewOrderRecorded(s.orders, s.history, id, order.Accept());
    AcceptStarts(s.orders, id, order, 0, Seen(orders, s.book, [t]));
    CascadeInv(Seen(orders, s.book, [t]), accepted, b, s.retired, s.history, orders, AcceptCb(id, 0), id, [], r);
    EmptyParts([AcceptCb(id, 0)], r.fills, [BookUpdateCb], []);
    EmptyParts(r.dropped, [], [], []);
  }

  lemma HeldKeepsInv(s: Sys, id: OrderId, order: Order, t: Tracker)
    requires Fresh(s, id, order, t) && Held(s.orders[id := order], id, s.book.stops.marketPrice)
    ensures Inv(Handle(s, AddReq(id, order, t.aon, t.ioc)))
  {
    hide Placed, Recorded, BookOk, EngineStep, QueueOk, Matching.SubmitPending;
    var orders := s.orders[id := order];
    var v, b := Seen(orders, s.book, [t]), HoldStop(orders, s.book, t);
    HeldStopInBook(s, id, order, t, b);
    PlacedIsQueue(v, s.orders[id := order.Accept()], b, s.retired);
    CascadeStep(v, b);
    HeldInv(s, id, order, t, b, SubmitPending(orders, b));
  }

  lemma NewOrderComing(s: Sys, id: OrderId, order: Order, t: Tracker)
    requires Fresh(s, id, order, t)
    ensures Placed(s.orders[id := order.Accept()], s.book, [t], s.retired)
    ensures Coming(Seen(s.orders[id := order], s.book, [t]), s.book, t)
  {
    NewOrderPlaced(s.orders, s.book, s.retired, order.Accept(), t);
    NewOrderView(s.orders, s.book, s.retired, id, order);
    UnknownIsNowhere(s.orders, s.book, s.retired, id);
    IsComing(Seen(s.orders[id := order], s.book, [t]), s.orders[id := order.Accept()], s.book, t, s.retired);
  }

  lemma AddedShape(s: Sys, orders: OrderMap, id: OrderId, qty: nat, a: Added, r: Submitted)
    requires a.inbound.ptr == id
    ensures var cbs := [AcceptCb(id, qty - Min(qty, a.inbound.openQty))] + a.fills + CancelRest(a.inbound) + r.fills
            + [BookUpdateCb];
            Deliver(s, orders, AddOutcome(qty, a, r), [])
                == Sys(r.book, ApplyAll(orders, cbs), s.retired + (a.dropped + r.dropped), s.history + cbs)
  {
    EmptyParts(a.dropped + r.dropped, [], [], []);
  }

  lemma AddedInv(s: Sys, id: OrderId, order: Order, t: Tracker, a: Added, r: Submitted)
    requires Fresh(s, id, order, t)
    requires Placed(s.orders[id := order.Accept()], s.book, [t], s.retired)
    requires Submission(Seen(s.orders[id := order], s.book, [t]), s.book, t, a, r)
    ensures Inv(Deliver(s, s.orders[id := order], AddOutcome(order.qty, a, r), []))
  {
    hide Placed, Recorded, BookOk, EngineStep, Views;
    var orders := s.orders[id := order];
    var accepted := s.orders[id := order.Accept()];
    NewOrderRecorded(s.orders, s.history, id, order.Accept());
    var head := AcceptCb(id, order.qty - Min(order.qty, a.inbound.openQty));
    AcceptStarts(s.orders, id, order, head.quantity, Seen(orders, s.book, [t]));
    SubmissionInv(Seen(orders, s.book, [t]), accepted, s.book, t, s.retired, s.history, orders, head, a, r);
    AddedShape(s, orders, id, order.qty, a, r);
  }

  lemma SubmittedKeepsInv(s: Sys, id: OrderId, order: Order, t: Tracker)
    requires Fresh(s, id, order, t) && !Held(s.orders[id := order], id, s.book.stops.marketPrice)
    ensures Inv(Handle(s, AddReq(id, order, t.aon, t.ioc)))
  {
    var orders := s.orders[id := order];
    NewOrderComing(s, id, order, t);
    IsSubmission(Seen(orders, s.book, [t]), s.book, t);
    var a := AddOrder(orders, s.book, t, order.price);
    AddedInv(s, id, order, t, a, SubmitPending(orders, a.book));
  }
}
