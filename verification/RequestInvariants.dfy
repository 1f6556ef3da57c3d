/** Cancel, replace and the market price keep the invariant too; so it holds after every run. */
module RequestInvariants {
  import opened Prices
  import opened Orders
  import opened Books
  import opened Matching
  import opened Faces
  import opened Accounting
  import opened BookRuns
  import opened Cascade
  import opened DepthSpec
  import opened DepthCascade
  import opened Requests
  import opened OrdersAfter
  import opened EngineSteps
  import opened System
  import opened RequestRuns

  // ---- A rejected order, and a market price from outside ----

  lemma RejectedShape(s: Sys, id: OrderId, order: Order, aon: bool, ioc: bool)
    requires order.qty == 0
    ensures var orders := s.orders[id := order];
            Handle(s, AddReq(id, order, aon, ioc))
                == Sys(s.book, ApplyAll(orders, [RejectCb(id)]), s.retired, s.history + [RejectCb(id)])
  {
    EmptyParts(s.retired, [], [], []);
  }

  lemma RejectedKeepsInv(s: Sys, id: OrderId, order: Order, aon: bool, ioc: bool)
    requires Inv(s) && id !in s.orders && order.filled == 0 && order.filledCost == 0 && order.qty == 0
    ensures Inv(Handle(s, AddReq(id, order, aon, ioc)))
  {
    hide Placed, Recorded, BookOk, Handle;
    var orders := s.orders[id := order];
    var t := Tracker(id, 0, aon, ioc);
    NewOrderPlaced(s.orders, s.book, s.retired, order, t);
    forall w: Weight
      ensures BookSum(w, s.book) == BookSum(w, s.book) + WeightOf(w, t)
    {
    }
    PlacedInBook(orders, s.book, t, s.retired, s.book);
    NewOrderView(s.orders, s.book, s.retired, id, order);
    NewOrderRecorded(s.orders, s.history, id, order);
    QuietCallback(orders, s.history, RejectCb(id));
    RejectedShape(s, id, order, aon, ioc);
  }

  /** A rejection leaves the record as it is. */
  lemma QuietCallback(orders: OrderMap, history: seq<Callback>, cb: Callback)
    requires Recorded(orders, history) && (cb.RejectCb? || cb.CancelRejectCb? || cb.ReplaceRejectCb?)
    ensures Recorded(orders, history + [cb]) && ApplyAll(orders, [cb]) == orders
  {
    forall id: OrderId
      ensures FillsOf(history + [cb], id) == FillsOf(history, id) && CostOf(history + [cb], id) == CostOf(history, id)
    {
      FillsOfAppend(history, [cb], id);
      CostOfAppend(history, [cb], id);
      NoFillsNothing([cb], id);
    }
    forall i | 0 <= i < |history + [cb]| && (history + [cb])[i].FillCb?
      ensures Pairs(orders, (history + [cb])[i])
    {
      assert (history + [cb])[i] == history[i];
    }
  }

  lemma MarketPriceKeepsBook(orders: OrderMap, b: Book, price: nat)
    requires BookOk(Seen(orders, b), b) && price != MARKET_ORDER_PRICE
    ensures BookOk(Seen(orders, SetMarket(b, price)), SetMarket(b, price))
  {
    hide SideOk, StopsOk, BookLive, BareSide;
    var v := Seen(orders, b);
    var b' := SetMarket(b, price);
    MarketPriceKeepsStopsOk(v, b.stops, price);
    assert BookOk(v, b');
    PricedTransfers(v, b');
    KnownBook(v.(priced := true), b');
  }

  lemma PricedTransfers(v: View, b: Book)
    requires BookOk(v, b) && b.stops.marketPrice != MARKET_ORDER_PRICE
    ensures BookOk(v.(priced := true), b)
  {
    hide BookOk, BookSum;
    BookTransfers(v, v.(priced := true), b);
  }

  lemma MarketPriceKeepsInv(s: Sys, price: nat)
    requires Inv(s) && price != MARKET_ORDER_PRICE
    ensures Inv(Handle(s, MarketPriceReq(price)))
  {
    hide BookOk, Placed, Recorded, Seen;
    var b' := SetMarket(s.book, price);
    forall w: Weight
      ensures BookSum(w, b') == BookSum(w, s.book)
    {
      MarketPriceKeepsStops(w, s.book.stops, price);
    }
    SamePlaced(s.orders, s.book, [], s.retired, b', [], s.retired);
    MarketPriceKeepsBook(s.orders, s.book, price);
  }

  /** Moving orders between places keeps every order placed. */
  lemma SamePlaced(orders: OrderMap, b: Book, coming: seq<Tracker>, retired: seq<Tracker>, b': Book,
                   coming': seq<Tracker>, retired': seq<Tracker>)
    requires Placed(orders, b, coming, retired)
    requires forall w ::
               BookSum(w, b') + Sum(w, coming') + Sum(w, retired')
               == BookSum(w, b) + Sum(w, coming) + Sum(w, retired)
    requires forall w :: BookSum(w, b') + Sum(w, coming') <= BookSum(w, b) + Sum(w, coming)
    ensures Placed(orders, b', coming', retired')
  {
    forall x: OrderId
      ensures BookSum(LiveOf(x), b') + Sum(LiveOf(x), coming')
              + Sum(LiveOf(x), retired') <= (if x in orders then 1 else 0)
      ensures x in orders ==>
              orders[x].qty == BookSum(OpenOf(x), b') + Sum(OpenOf(x), coming') + orders[x].filled
              + Sum(OpenOf(x), retired')
      ensures x in orders && BookSum(LiveOf(x), b') + Sum(LiveOf(x), coming') > 0 ==> orders[x].state == Accepted
    {
      assert BookSum(LiveOf(x), b) + Sum(LiveOf(x), coming) + Sum(LiveOf(x), retired) <= (if x in orders then 1 else 0);
      assert x in orders ==>
             orders[x].qty == BookSum(OpenOf(x), b) + Sum(OpenOf(x), coming) + orders[x].filled
             + Sum(OpenOf(x), retired);
    }
    forall x: OrderId, q: nat | x in orders && BookSum(ExactAon(x, q), b') + Sum(ExactAon(x, q), coming')
                                + Sum(ExactAon(x, q), retired') > 0
      ensures orders[x].filled == 0
    {
      assert BookSum(ExactAon(x, q), b) + Sum(ExactAon(x, q), coming) + Sum(ExactAon(x, q), retired) > 0;
    }
  }

  // ---- Taking a resting order out ----

  lemma WithoutCounts(b: Book, buy: bool, k: nat, w: Weight)
    requires k < |b.Side(buy)|
    ensures BookSum(w, b) == BookSum(w, Without(b, buy, k)) + WeightOf(w, b.Side(buy)[k].tracker)
  {
    SumErase(w, b.Side(buy), k);
  }

  lemma EraseKeepsSide(v: View, s: seq<Entry>, k: nat, buySide: bool)
    requires SideOk(v, s, buySide) && k < |s|
    ensures SideOk(v, Erase(s, k), buySide)
  {
    var s' := Erase(s, k);
    assert forall i :: 0 <= i < |s'| ==> s'[i] == s[if i < k then i else i + 1];
    SettleKeepsNodes(s, k, s[k].tracker.(openQty := 0));
    forall i | 0 <= i < |s'|
      ensures Resting(v, s'[i], buySide)
    {
      assert Resting(v, s[if i < k then i else i + 1], buySide);
    }
  }

  lemma WithoutKeepsBook(v: View, b: Book, buy: bool, k: nat)
    requires BookOk(v, b) && k < |b.Side(buy)|
    ensures BookOk(v, Without(b, buy, k))
  {
    EraseKeepsSide(v, b.Side(buy), k, buy);
  }

  /** A resting order, taken out: it is nowhere else. */
  ghost predicate TakenOut(s: Sys, buy: bool, k: nat, t: Tracker, b: Book) {
    && Inv(s) && k < |s.book.Side(buy)| && t == s.book.Side(buy)[k].tracker && b == Without(s.book, buy, k)
  }

  lemma TakenIsPlaced(s: Sys, buy: bool, k: nat, t: Tracker, b: Book)
    requires TakenOut(s, buy, k, t, b)
    ensures Placed(s.orders, b, [t], s.retired) && BookOk(Seen(s.orders, s.book), b)
    ensures t.openQty > 0 && t.ptr in s.orders && BookSum(LiveOf(t.ptr), b) == 0 && Sum(LiveOf(t.ptr), s.retired) == 0
  {
    hide Recorded, StopsOk, BookSum;
    forall w: Weight
      ensures BookSum(w, b) + Sum(w, [t]) == BookSum(w, s.book)
    {
      WithoutCounts(s.book, buy, k, w);
      SumOne(w, t);
    }
    SamePlaced(s.orders, s.book, [], s.retired, b, [t], s.retired);
    WithoutKeepsBook(Seen(s.orders, s.book), s.book, buy, k);
    SumOne(LiveOf(t.ptr), t);
    assert AllOpen(s.book.Side(buy));
    PlacedAt(s.orders, b, [t], s.retired, t.ptr, 0);
  }

  // ---- Cancel ----

  lemma CancelCallbacks(orders: OrderMap, id: OrderId, q: nat)
    ensures var cbs := [CancelCb(id, q), BookUpdateCb];
            After(orders, [], {id}, ApplyAll(orders, cbs)) && Carries(cbs, [])
  {
    var cbs := [CancelCb(id, q), BookUpdateCb];
    assert cbs == [CancelCb(id, q)] + [BookUpdateCb];
    ApplyAllAppend(orders, [CancelCb(id, q)], [BookUpdateCb]);
    BookUpdateApplies(ApplyAll(orders, [CancelCb(id, q)]));
    CancelApplies(orders, id, q);
    CarriesParts(cbs, [], [], [], []);
    EmptyParts(cbs, [], [], []);
  }

  /** An empty engine step. */
  lemma NoStep(v: View, b: Book)
    requires BookOk(v, b)
    ensures EngineStep(v, b, [], b, [], [])
  {
  }

  lemma InvWhenNothingTrades(v: View, orders: OrderMap, b: Book, retired: seq<Tracker>, history: seq<Callback>,
                             closed: set<OrderId>, orders': OrderMap, cbs: seq<Callback>)
    requires Placed(orders, b, [], retired) && BookOk(v, b) && After(orders, [], closed, orders')
    requires forall id :: id in closed ==> BookSum(LiveOf(id), b) == 0
    requires Recorded(orders, history) && Carries(cbs, []) && Views(v, orders)
    ensures Inv(Sys(b, orders', retired, history + cbs))
  {
    NoStep(v, b);
    EmptyParts(retired, [], [], []);
    InvAfter(v, orders, b, [], retired, history, b, [], [], closed, orders', cbs);
  }

  lemma RetiredIsPlaced(s: Sys, buy: bool, k: nat, t: Tracker, b: Book)
    requires TakenOut(s, buy, k, t, b)
    ensures Placed(s.orders, b, [], s.retired + [t])
  {
    TakenIsPlaced(s, buy, k, t, b);
    forall w: Weight
      ensures Sum(w, s.retired + [t]) == Sum(w, s.retired) + Sum(w, [t])
    {
      SumAppend(w, s.retired, [t]);
    }
    SamePlaced(s.orders, b, [t], s.retired, b, [], s.retired + [t]);
  }

  lemma RetiredInv(v: View, orders: OrderMap, b: Book, t: Tracker, retired: seq<Tracker>, history: seq<Callback>)
    requires Placed(orders, b, [], retired) && BookOk(v, b) && BookSum(LiveOf(t.ptr), b) == 0
    requires Recorded(orders, history) && v.env == v.denv == orders
    ensures var cbs := [CancelCb(t.ptr, t.openQty), BookUpdateCb];
            Inv(Sys(b, ApplyAll(orders, cbs), retired, history + cbs))
  {
    var cbs := [CancelCb(t.ptr, t.openQty), BookUpdateCb];
    CancelCallbacks(orders, t.ptr, t.openQty);
    InvWhenNothingTrades(v, orders, b, retired, history, {t.ptr}, ApplyAll(orders, cbs), cbs);
  }

  lemma CancelledInv(s: Sys, buy: bool, k: nat, t: Tracker, b: Book)
    requires TakenOut(s, buy, k, t, b)
    ensures var cbs := [CancelCb(t.ptr, t.openQty), BookUpdateCb];
            Inv(Sys(b, ApplyAll(s.orders, cbs), s.retired + [t], s.history + cbs))
  {
    TakenIsPlaced(s, buy, k, t, b);
    RetiredIsPlaced(s, buy, k, t, b);
    RetiredInv(Seen(s.orders, s.book), s.orders, b, t, s.retired + [t], s.history);
  }

  lemma CancelShape(s: Sys, id: OrderId)
    ensures var buy := IsBuy(s.orders, id);
            var k := FindOnMarket(s.orders, s.book, id);
            if k == |s.book.Side(buy)| then
              Handle(s, CancelReq(id))
                  == Sys(s.book, ApplyAll(s.orders, [CancelRejectCb(id)]), s.retired, s.history + [CancelRejectCb(id)])
            else
              var t := s.book.Side(buy)[k].tracker;
              var cbs := [CancelCb(t.ptr, t.openQty), BookUpdateCb];
              Handle(s, CancelReq(id))
                  == Sys(Without(s.book, buy, k), ApplyAll(s.orders, cbs), s.retired + [t], s.history + cbs)
  {
    EmptyParts(s.retired, [], [], []);
    EmptyParts(Taken(s, id), [], [], []);
  }

  lemma CancelKeepsInv(s: Sys, id: OrderId)
    requires Inv(s)
    ensures Inv(Handle(s, CancelReq(id)))
  {
    var buy := IsBuy(s.orders, id);
    var k := FindOnMarket(s.orders, s.book, id);
    CancelShape(s, id);
    if k == |s.book.Side(buy)| {
      QuietCallback(s.orders, s.history, CancelRejectCb(id));
    } else {
      CancelledInv(s, buy, k, s.book.Side(buy)[k].tracker, Without(s.book, buy, k));
    }
  }

  // ---- Replace ----

  /** The application order and the tracker of a replaced order. */
  ghost predicate Replaced(s: Sys, buy: bool, k: nat, t: Tracker, b: Book, d: int, price: nat, orders: OrderMap,
                           v: View) {
    && TakenOut(s, buy, k, t, b) && t.openQty + d >= 0
    && (PriceOf(s.orders, t.ptr) != MARKET_ORDER_PRICE ==> price != MARKET_ORDER_PRICE)
    && orders == ApplyCallback(s.orders, ReplaceCb(t.ptr, t.openQty, d, price))
    && v == Seen(s.orders, s.book).(denv := orders)
  }

  lemma ReplaceApplies(orders: OrderMap, id: OrderId, open: nat, d: int, price: nat)
    requires id in orders && orders[id].state == Accepted && orders[id].qty + d >= 0
    ensures ApplyCallback(orders, ReplaceCb(id, open, d, price))
            == orders[id := orders[id].(qty := orders[id].qty + d, price := price)]
  {
  }

  lemma AloneTotals(b: Book, t: Tracker, retired: seq<Tracker>)
    requires t.openQty > 0 && BookSum(LiveOf(t.ptr), b) == 0 && Sum(LiveOf(t.ptr), retired) == 0
    ensures Total(OpenOf(t.ptr), b, [t]) == t.openQty && Sum(OpenOf(t.ptr), retired) == 0
    ensures Total(LiveOf(t.ptr), b, [t]) == 1
    ensures t.aon ==> Total(ExactAon(t.ptr, t.openQty), b, [t]) > 0
  {
    SumOne(LiveOf(t.ptr), t);
    SumOne(OpenOf(t.ptr), t);
    SumOne(ExactAon(t.ptr, t.openQty), t);
    TotalsRelate(t.ptr, 0, b, []);
    NotLiveNotOpen(t.ptr, retired);
  }

  lemma AloneIsMirrored(orders: OrderMap, b: Book, t: Tracker, retired: seq<Tracker>)
    requires Placed(orders, b, [t], retired)
    requires t.openQty > 0 && BookSum(LiveOf(t.ptr), b) == 0 && Sum(LiveOf(t.ptr), retired) == 0
    ensures t.ptr in orders
    ensures orders[t.ptr].state == Accepted
    ensures orders[t.ptr].qty == t.openQty + orders[t.ptr].filled
    ensures t.aon ==> orders[t.ptr].filled == 0
  {
    AloneTotals(b, t, retired);
    PlacedAt(orders, b, [t], retired, t.ptr, t.openQty);
  }

  /** The application order of a resting order mirrors it: accepted, with the same quantity
      open, and not filled at all when it is all-or-none. */
  lemma TakenIsMirrored(s: Sys, buy: bool, k: nat, t: Tracker, b: Book)
    requires TakenOut(s, buy, k, t, b)
    ensures t.ptr in s.orders
    ensures s.orders[t.ptr].state == Accepted
    ensures s.orders[t.ptr].qty == t.openQty + s.orders[t.ptr].filled
    ensures t.aon ==> s.orders[t.ptr].filled == 0
  {
    TakenIsPlaced(s, buy, k, t, b);
    AloneIsMirrored(s.orders, b, t, s.retired);
  }

  lemma ReplacedOrder(s: Sys, buy: bool, k: nat, t: Tracker, b: Book, d: int, price: nat, orders: OrderMap, v: View)
    requires Replaced(s, buy, k, t, b, d, price, orders, v)
    ensures t.ptr in s.orders && s.orders[t.ptr].qty + d >= 0
    ensures orders == s.orders[t.ptr := s.orders[t.ptr].(qty := s.orders[t.ptr].qty + d, price := price)]
    ensures s.orders[t.ptr].state == Accepted
    ensures t.aon ==> s.orders[t.ptr].filled == 0
  {
    hide Inv, Placed, Recorded, BookOk, TakenOut;
    TakenIsMirrored(s, buy, k, t, b);
    ReplaceApplies(s.orders, t.ptr, t.openQty, d, price);
  }

  lemma ReplacedPlaced(s: Sys, buy: bool, k: nat, t: Tracker, b: Book, d: int, price: nat, orders: OrderMap, v: View)
    requires Replaced(s, buy, k, t, b, d, price, orders, v)
    ensures Placed(orders, b, [t.(openQty := t.openQty + d)], s.retired)
  {
    var t' := t.(openQty := t.openQty + d);
    ReplacedOrder(s, buy, k, t, b, d, price, orders, v);
    TakenIsPlaced(s, buy, k, t, b);
    forall x: OrderId
      ensures BookSum(LiveOf(x), b) + Sum(LiveOf(x), [t']) + Sum(LiveOf(x), s.retired) <= (if x in orders then 1 else 0)
      ensures x in orders ==>
              orders[x].qty == BookSum(OpenOf(x), b) + Sum(OpenOf(x), [t']) + orders[x].filled
              + Sum(OpenOf(x), s.retired)
      ensures x in orders && BookSum(LiveOf(x), b) + Sum(LiveOf(x), [t']) > 0 ==> orders[x].state == Accepted
    {
      ReplacedAt(s, b, t, d, orders, x, 0);
    }
    forall x: OrderId, q: nat | x in orders && BookSum(ExactAon(x, q), b) + Sum(ExactAon(x, q), [t'])
                                + Sum(ExactAon(x, q), s.retired) > 0
      ensures orders[x].filled == 0
    {
      ReplacedAt(s, b, t, d, orders, x, q);
    }
  }

  lemma ReplacedAt(s: Sys, b: Book, t: Tracker, d: int, orders: OrderMap, x: OrderId, q: nat)
    requires Placed(s.orders, b, [t], s.retired) && t.openQty + d >= 0 && t.openQty > 0
    requires BookSum(LiveOf(t.ptr), b) == 0
    requires t.ptr in s.orders && s.orders[t.ptr].qty + d >= 0 && s.orders[t.ptr].state == Accepted
    requires t.ptr in orders
    requires orders == s.orders[t.ptr := s.orders[t.ptr].(qty := s.orders[t.ptr].qty + d, price := orders[t.ptr].price)]
    requires t.aon ==> s.orders[t.ptr].filled == 0
    ensures var t' := t.(openQty := t.openQty + d);
            && BookSum(LiveOf(x), b) + Sum(LiveOf(x), [t'])
               + Sum(LiveOf(x), s.retired) <= (if x in orders then 1 else 0)
            && (x in orders ==>
                orders[x].qty == BookSum(OpenOf(x), b) + Sum(OpenOf(x), [t']) + orders[x].filled
                    + Sum(OpenOf(x), s.retired))
            && (x in orders && BookSum(LiveOf(x), b) + Sum(LiveOf(x), [t']) > 0 ==> orders[x].state == Accepted)
            && (x in orders && BookSum(ExactAon(x, q), b) + Sum(ExactAon(x, q), [t'])
                + Sum(ExactAon(x, q), s.retired) > 0
                ==> orders[x].filled == 0)
  {
    hide BookSum, Placed;
    var t' := t.(openQty := t.openQty + d);
    SumOne(LiveOf(x), t);
    SumOne(LiveOf(x), t');
    SumOne(OpenOf(x), t);
    SumOne(OpenOf(x), t');
    SumOne(ExactAon(x, q), t);
    SumOne(ExactAon(x, q), t');
    PlacedAt(s.orders, b, [t], s.retired, x, q);
    TotalsRelate(x, q, b, []);
  }

  lemma ReplacedRecorded(orders: OrderMap, history: seq<Callback>, id: OrderId, o: Order)
    requires Recorded(orders, history) && id in orders && o.isBuy == orders[id].isBuy
    requires o.filled == orders[id].filled && o.filledCost == orders[id].filledCost
    ensures Recorded(orders[id := o], history)
  {
    forall i | 0 <= i < |history| && history[i].FillCb?
      ensures Pairs(orders[id := o], history[i])
    {
      assert Pairs(orders, history[i]);
    }
  }

  lemma LooksSameForLive(orders: OrderMap, id: OrderId, o: Order, b: Book, v: View)
    requires BookSum(LiveOf(id), b) == 0 && v.env == v.denv == orders
    requires (v.priced ==> b.stops.marketPrice != MARKET_ORDER_PRICE)
    ensures SameForLive(v, v.(denv := orders[id := o]), b)
  {
    forall x | BookSum(LiveOf(x), b) > 0
      ensures PriceOf(orders[id := o], x) == PriceOf(orders, x) && IsBuy(orders[id := o], x) == IsBuy(orders, x)
    {
    }
  }

  lemma ReplacedLooksSame(orders: OrderMap, id: OrderId, o: Order, b: Book, v: View)
    requires v.env == v.denv == orders && BookOk(v, b) && BookSum(LiveOf(id), b) == 0
    requires id in orders && o.isBuy == orders[id].isBuy
    requires (orders[id].price != MARKET_ORDER_PRICE ==> o.price != MARKET_ORDER_PRICE)
    ensures var v' := v.(denv := orders[id := o]); BookOk(v', b) && Views(v', orders[id := o]) && SidesAgree(v')
  {
    hide SideOk, BookSum, SameForLive;
    LooksSameForLive(orders, id, o, b, v);
    BookTransfers(v, v.(denv := orders[id := o]), b);
  }

  lemma ReplacedViews(s: Sys, buy: bool, k: nat, t: Tracker, b: Book, d: int, price: nat, orders: OrderMap, v: View)
    requires Replaced(s, buy, k, t, b, d, price, orders, v)
    ensures Views(v, orders) && SidesAgree(v) && BookOk(v, b) && Recorded(orders, s.history)
  {
    ReplacedOrder(s, buy, k, t, b, d, price, orders, v);
    TakenIsPlaced(s, buy, k, t, b);
    var o := s.orders[t.ptr].(qty := s.orders[t.ptr].qty + d, price := price);
    ReplacedLooksSame(s.orders, t.ptr, o, b, Seen(s.orders, s.book));
    ReplacedRecorded(s.orders, s.history, t.ptr, o);
  }

  /** Nothing is left open: the order is cancelled, and only the cascade runs. */
  lemma EmptiedInv(s: Sys, buy: bool, k: nat, t: Tracker, b: Book, d: int, price: nat, orders: OrderMap, v: View,
                   r: Submitted)
    requires Replaced(s, buy, k, t, b, d, price, orders, v) && t.openQty + d == 0
    requires Placed(orders, b, [], s.retired)
    requires EngineStep(v, b, [], r.book, r.fills, r.dropped)
    ensures var head := ReplaceCb(t.ptr, t.openQty, d, price);
            Inv(Deliver(s, s.orders, Finish(r, [head, CancelCb(t.ptr, 0)], false, []), []))
  {
    var head := ReplaceCb(t.ptr, t.openQty, d, price);
    ReplacedViews(s, buy, k, t, b, d, price, orders, v);
    TakenIsPlaced(s, buy, k, t, b);
    CascadeInv(v, orders, b, s.retired, s.history, s.orders, head, t.ptr, [CancelCb(t.ptr, 0)], r);
    EmptiedShape(s, head, t.ptr, r);
  }

  lemma EmptiedShape(s: Sys, head: Callback, id: OrderId, r: Submitted)
    ensures var cbs := [head] + [CancelCb(id, 0)] + r.fills + [BookUpdateCb];
            Deliver(s, s.orders, Finish(r, [head, CancelCb(id, 0)], false, []), [])
            == Sys(r.book, ApplyAll(s.orders, cbs), s.retired + r.dropped, s.history + cbs)
  {
    assert [head] + [CancelCb(id, 0)] == [head, CancelCb(id, 0)];
    EmptyParts(r.dropped, [], [], []);
  }

  lemma EmptiedPlaced(s: Sys, buy: bool, k: nat, t: Tracker, b: Book, d: int, price: nat, orders: OrderMap, v: View)
    requires Replaced(s, buy, k, t, b, d, price, orders, v) && t.openQty + d == 0
    ensures Placed(orders, b, [], s.retired)
  {
    ReplacedPlaced(s, buy, k, t, b, d, price, orders, v);
    PlacedInBook(orders, b, t.(openQty := t.openQty + d), s.retired, b);
  }

  /** Something is left open: the order is submitted again. */
  lemma ResubmittedInv(s: Sys, buy: bool, k: nat, t: Tracker, b: Book, d: int, price: nat, orders: OrderMap, v: View,
                       a: Added, r: Submitted)
    requires Replaced(s, buy, k, t, b, d, price, orders, v) && !t.ioc
    requires Placed(orders, b, [t.(openQty := t.openQty + d)], s.retired)
    requires Submission(v, b, t.(openQty := t.openQty + d), a, r)
    ensures Inv(Deliver(s, s.orders, Finish(r, [ReplaceCb(t.ptr, t.openQty, d, price)] + a.fills, a.matched, a.dropped),
                        []))
  {
    var head := ReplaceCb(t.ptr, t.openQty, d, price);
    ReplacedViews(s, buy, k, t, b, d, price, orders, v);
    SubmissionInv(v, orders, b, t.(openQty := t.openQty + d), s.retired, s.history, s.orders, head, a, r);
    ResubmittedShape(s, head, a, r);
  }

  lemma ResubmittedShape(s: Sys, head: Callback, a: Added, r: Submitted)
    requires !a.inbound.ioc
    ensures var cbs := [head] + a.fills + CancelRest(a.inbound) + r.fills + [BookUpdateCb];
            Deliver(s, s.orders, Finish(r, [head] + a.fills, a.matched, a.dropped), [])
            == Sys(r.book, ApplyAll(s.orders, cbs), s.retired + (a.dropped + r.dropped), s.history + cbs)
  {
    EmptyParts([head] + a.fills, [], [], []);
    EmptyParts(a.dropped + r.dropped, [], [], []);
  }

  lemma ResubmittedComing(s: Sys, buy: bool, k: nat, t: Tracker, b: Book, d: int, price: nat, orders: OrderMap, v: View)
    requires Replaced(s, buy, k, t, b, d, price, orders, v) && t.openQty + d > 0
    ensures Coming(v, b, t.(openQty := t.openQty + d)) && PriceOf(v.denv, t.ptr) == price && !t.ioc
  {
    assert Resting(Seen(s.orders, s.book), s.book.Side(buy)[k], buy);
    TakenIsPlaced(s, buy, k, t, b);
    ReplacedOrder(s, buy, k, t, b, d, price, orders, v);
    ReplacedPlaced(s, buy, k, t, b, d, price, orders, v);
    ReplacedViews(s, buy, k, t, b, d, price, orders, v);
    IsComing(v, orders, b, t.(openQty := t.openQty + d), s.retired);
  }

  lemma EmptyingKeepsInv(s: Sys, buy: bool, k: nat, t: Tracker, b: Book, d: int, price: nat, orders: OrderMap, v: View)
    requires Replaced(s, buy, k, t, b, d, price, orders, v) && t.openQty + d == 0
    ensures Inv(Deliver(s, s.orders, ReplaceTaken(s.orders, b, t, d, price), []))
  {
    hide Placed;
    EmptiedPlaced(s, buy, k, t, b, d, price, orders, v);
    ReplacedViews(s, buy, k, t, b, d, price, orders, v);
    PlacedIsQueue(v, orders, b, s.retired);
    CascadeStep(v, b);
    EmptiedInv(s, buy, k, t, b, d, price, orders, v, SubmitPending(s.orders, b));
  }

  lemma ResubmittingKeepsInv(s: Sys, buy: bool, k: nat, t: Tracker, b: Book, d: int, price: nat, orders: OrderMap,
                             v: View)
    requires Replaced(s, buy, k, t, b, d, price, orders, v) && t.openQty + d > 0
    ensures Inv(Deliver(s, s.orders, ReplaceTaken(s.orders, b, t, d, price), []))
  {
    hide Recorded, Matching.AddOrder, SubmitPending, Submission, Placed;
    var t' := t.(openQty := t.openQty + d);
    ResubmittedComing(s, buy, k, t, b, d, price, orders, v);
    ReplacedPlaced(s, buy, k, t, b, d, price, orders, v);
    IsSubmission(v, b, t');
    var a := AddOrder(s.orders, b, t', price);
    ResubmittedInv(s, buy, k, t, b, d, price, orders, v, a, SubmitPending(s.orders, a.book));
  }

  lemma ReplaceFoundKeepsInv(s: Sys, buy: bool, k: nat, t: Tracker, d: int, price: nat)
    requires k < |s.book.Side(buy)| && TakenOut(s, buy, k, t, Without(s.book, buy, k)) && t.openQty + d >= 0
    requires PriceOf(s.orders, t.ptr) != MARKET_ORDER_PRICE ==> price != MARKET_ORDER_PRICE
    ensures Inv(Deliver(s, s.orders, ReplaceTaken(s.orders, Without(s.book, buy, k), t, d, price), []))
  {
    var b := Without(s.book, buy, k);
    var orders := ApplyCallback(s.orders, ReplaceCb(t.ptr, t.openQty, d, price));
    var v := Seen(s.orders, s.book).(denv := orders);
    if t.openQty + d == 0 {
      EmptyingKeepsInv(s, buy, k, t, b, d, price, orders, v);
    } else {
      ResubmittingKeepsInv(s, buy, k, t, b, d, price, orders, v);
    }
  }

  lemma RejectionInv(s: Sys, cb: Callback)
    requires Inv(s) && (cb.RejectCb? || cb.CancelRejectCb? || cb.ReplaceRejectCb?)
    ensures Inv(Deliver(s, s.orders, Outcome(s.book, [cb], false, []), []))
  {
    QuietCallback(s.orders, s.history, cb);
    EmptyParts(s.retired, [], [], []);
  }

  lemma ReplaceKeepsInv(s: Sys, id: OrderId, delta: int, newPrice: nat)
    requires Inv(s)
    ensures Inv(Deliver(s, s.orders, Replace(s.orders, s.book, id, delta, newPrice), []))
  {
    var buy := IsBuy(s.orders, id);
    var k := FindOnMarket(s.orders, s.book, id);
    if k == |s.book.Side(buy)| {
      RejectionInv(s, ReplaceRejectCb(id));
    } else {
      var t := s.book.Side(buy)[k].tracker;
      ReplaceFoundKeepsInv(s, buy, k, t, ClipDelta(delta, t.openQty), if newPrice == 0 then PriceOf(s.orders, id)
                           else newPrice);
    }
  }

  // ---- Runs ----

  /** Every proper request keeps the invariant. */
  lemma HandleKeepsInv(s: Sys, r: Request)
    requires Inv(s) && Proper(s, r)
    ensures Inv(Handle(s, r))
  {
    hide Inv, MeetsNone, Fresh;
    match r
    case AddReq(id, order, aon, ioc) =>
      if order.qty == 0 {
        RejectedKeepsInv(s, id, order, aon, ioc);
      } else {
        IsFresh(s, id, order, aon, ioc);
        if Held(s.orders[id := order], id, s.book.stops.marketPrice) {
          HeldKeepsInv(s, id, order, Tracker(id, order.qty, aon, ioc));
        } else {
          SubmittedKeepsInv(s, id, order, Tracker(id, order.qty, aon, ioc));
        }
      }
    case CancelReq(id) => CancelKeepsInv(s, id);
    case ReplaceReq(id, delta, newPrice) => ReplaceKeepsInv(s, id, delta, newPrice);
    case MarketPriceReq(price) => MarketPriceKeepsInv(s, price);
  }

  const START := Sys(Book([], [], StopBook(0, [], [], [])), map[], [], [])

  /** States reached from an empty book by proper requests. */
  ghost predicate Reaches(s: Sys, rs: seq<Request>, s': Sys)
    decreases |rs|
  {
    if rs == [] then s == s' else Proper(s, rs[0]) && Reaches(Handle(s, rs[0]), rs[1..], s')
  }

  lemma {:induction false} RunKeepsInv(s: Sys, rs: seq<Request>, s': Sys)
    requires Inv(s) && Reaches(s, rs, s')
    ensures Inv(s')
    decreases |rs|
  {
    if rs != [] {
      HandleKeepsInv(s, rs[0]);
      RunKeepsInv(Handle(s, rs[0]), rs[1..], s');
    }
  }

  lemma StartHasInv()
    ensures Inv(START)
  {
  }
}
