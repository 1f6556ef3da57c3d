/** The book together with the application orders, over whole runs of requests, each one's
    callbacks delivered before the next begins: what every request keeps. */
module System {
  import opened Prices
  import opened Orders
  import opened Options
  import opened Books
  import opened Matching
  import opened Accounting
  import opened BookRuns
  import opened Trades
  import opened DepthCascade
  import opened OrdersAfter
  import opened EngineSteps

  /** `retired` collects what was cancelled, and the dropped remainders of
      immediate-or-cancel orders; `history` is every callback so far. */
  datatype Sys = Sys(book: Book, orders: OrderMap, retired: seq<Tracker>, history: seq<Callback>)

  /** Where every order's quantity is: every known order is at one place at most (at rest,
      held, coming in, or retired); what it asked for is what is open, what was filled and
      what was given up; it is live only while accepted; and an all-or-none order that is
      live, or was given up, has not been filled at all. */
  ghost predicate Placed(orders: OrderMap, b: Book, coming: seq<Tracker>, retired: seq<Tracker>) {
    && (forall id ::
          BookSum(LiveOf(id), b) + Sum(LiveOf(id), coming)
              + Sum(LiveOf(id), retired) <= (if id in orders then 1 else 0))
    && (forall id :: id in orders ==>
          orders[id].qty == BookSum(OpenOf(id), b) + Sum(OpenOf(id), coming) + orders[id].filled
              + Sum(OpenOf(id), retired))
    && (forall id :: id in orders && BookSum(LiveOf(id), b) + Sum(LiveOf(id), coming) > 0 ==>
        orders[id].state == Accepted)
    && (forall id, q ::
          id in orders && BookSum(ExactAon(id, q), b) + Sum(ExactAon(id, q), coming) + Sum(ExactAon(id, q), retired) > 0
          ==> orders[id].filled == 0)
  }

  // ---- Relations between the totals ----

  lemma {:induction false} NotLiveNotOpen(id: OrderId, ts: seq<Tracker>)
    ensures Sum(LiveOf(id), ts) == 0 <==> Sum(OpenOf(id), ts) == 0
  {
    if ts != [] {
      NotLiveNotOpen(id, ts[1..]);
    }
  }

  lemma {:induction false} NotLiveNotExact(id: OrderId, q: nat, ts: seq<Tracker>)
    ensures Sum(ExactAon(id, q), ts) <= Sum(LiveOf(id), ts)
  {
    if ts != [] {
      NotLiveNotExact(id, q, ts[1..]);
    }
  }

  /** An order that is at one place, all-or-none with exactly `q` open, has `q` open. */
  lemma {:induction false} ExactIsOpen(id: OrderId, q: nat, ts: seq<Tracker>)
    requires Sum(ExactAon(id, q), ts) > 0 && Sum(LiveOf(id), ts) <= 1
    ensures Sum(OpenOf(id), ts) == q
  {
    if WeightOf(ExactAon(id, q), ts[0]) > 0 {
      NotLiveNotOpen(id, ts[1..]);
    } else {
      NotLiveNotExact(id, q, ts[1..]);
      ExactIsOpen(id, q, ts[1..]);
    }
  }

  function Total(w: Weight, b: Book, coming: seq<Tracker>): nat {
    BookSum(w, b) + Sum(w, coming)
  }

  lemma TotalIsSum(w: Weight, b: Book, coming: seq<Tracker>)
    ensures Total(w, b, coming) == Sum(w, BookLive(b) + coming)
  {
    SumBookLive(w, b);
    SumAppend(w, BookLive(b), coming);
  }

  lemma TotalsRelate(id: OrderId, q: nat, b: Book, coming: seq<Tracker>)
    ensures Total(LiveOf(id), b, coming) == 0 <==> Total(OpenOf(id), b, coming) == 0
    ensures Total(ExactAon(id, q), b, coming) > 0 && Total(LiveOf(id), b, coming) <= 1 ==>
            Total(OpenOf(id), b, coming) == q
    ensures Total(ExactAon(id, q), b, coming) <= Total(LiveOf(id), b, coming)
  {
    var ts := BookLive(b) + coming;
    TotalIsSum(LiveOf(id), b, coming);
    TotalIsSum(OpenOf(id), b, coming);
    TotalIsSum(ExactAon(id, q), b, coming);
    NotLiveNotOpen(id, ts);
    NotLiveNotExact(id, q, ts);
    if Sum(ExactAon(id, q), ts) > 0 && Sum(LiveOf(id), ts) <= 1 {
      ExactIsOpen(id, q, ts);
    }
  }

  /** The placement of one order, spelled out. */
  lemma PlacedAt(orders: OrderMap, b: Book, coming: seq<Tracker>, retired: seq<Tracker>, id: OrderId, q: nat)
    requires Placed(orders, b, coming, retired)
    ensures Total(LiveOf(id), b, coming) + Sum(LiveOf(id), retired) <= (if id in orders then 1 else 0)
    ensures id in orders ==>
            orders[id].qty == Total(OpenOf(id), b, coming) + orders[id].filled + Sum(OpenOf(id), retired)
    ensures id in orders && Total(LiveOf(id), b, coming) > 0 ==> orders[id].state == Accepted
    ensures id in orders && Total(ExactAon(id, q), b, coming) + Sum(ExactAon(id, q), retired) > 0 ==>
              orders[id].filled == 0
  {
  }

  // ---- One engine step keeps every order placed ----

  lemma PlacedOne(v: View, orders: OrderMap, b: Book, coming: seq<Tracker>, retired: seq<Tracker>, b': Book,
                  fills: seq<Callback>,
                  dropped: seq<Tracker>, closed: set<OrderId>, orders': OrderMap, id: OrderId)
    requires Placed(orders, b, coming, retired) && EngineStep(v, b, coming, b', fills, dropped)
    requires After(orders, fills, closed, orders')
    requires id in closed ==> BookSum(LiveOf(id), b') == 0
    ensures BookSum(LiveOf(id), b') + Sum(LiveOf(id), retired + dropped) <= (if id in orders' then 1 else 0)
    ensures id in orders' ==>
            orders'[id].qty == BookSum(OpenOf(id), b') + orders'[id].filled + Sum(OpenOf(id), retired + dropped)
    ensures id in orders' && BookSum(LiveOf(id), b') > 0 ==> orders'[id].state == Accepted
  {
    assert Falling(LiveOf(id));
    assert BookSum(LiveOf(id), b) + Sum(LiveOf(id), coming)
           + Sum(LiveOf(id), retired) <= (if id in orders then 1 else 0);
    SumAppend(LiveOf(id), retired, dropped);
    SumAppend(OpenOf(id), retired, dropped);
    if id in orders {
      assert FilledBy(orders[id], orders'[id], FillsOf(fills, id), CostOf(fills, id));
      TotalsRelate(id, 0, b', []);
    }
  }

  lemma PlacedAon(v: View, orders: OrderMap, b: Book, coming: seq<Tracker>, retired: seq<Tracker>, b': Book,
                  fills: seq<Callback>,
                  dropped: seq<Tracker>, closed: set<OrderId>, orders': OrderMap, id: OrderId, q: nat)
    requires Placed(orders, b, coming, retired) && EngineStep(v, b, coming, b', fills, dropped)
    requires After(orders, fills, closed, orders')
    requires id in orders && BookSum(ExactAon(id, q), b') + Sum(ExactAon(id, q), retired + dropped) > 0
    ensures orders'[id].filled == 0
  {
    PlacedAt(orders, b, coming, retired, id, q);
    StepTotals(v, b, coming, b', fills, dropped, id, q);
    assert FilledBy(orders[id], orders'[id], FillsOf(fills, id), CostOf(fills, id));
    hide Placed, EngineStep, BookSum, After;
    SumAppend(ExactAon(id, q), retired, dropped);
    NotLiveNotExact(id, q, retired);
    TotalsRelate(id, q, b, coming);
    TotalsRelate(id, q, b', dropped);
  }

  /** What one engine step does to the totals of one order. */
  lemma StepTotals(v: View, b: Book, coming: seq<Tracker>, b': Book, fills: seq<Callback>, dropped: seq<Tracker>,
                   id: OrderId, q: nat)
    requires EngineStep(v, b, coming, b', fills, dropped)
    ensures Total(OpenOf(id), b', dropped) + FillsOf(fills, id) == Total(OpenOf(id), b, coming)
    ensures Total(LiveOf(id), b', dropped) <= Total(LiveOf(id), b, coming)
    ensures Total(ExactAon(id, q), b', dropped) <= Total(ExactAon(id, q), b, coming)
  {
    assert Falling(LiveOf(id)) && Falling(ExactAon(id, q));
  }

  lemma PlacedAfter(v: View, orders: OrderMap, b: Book, coming: seq<Tracker>, retired: seq<Tracker>, b': Book,
                    fills: seq<Callback>,
                    dropped: seq<Tracker>, closed: set<OrderId>, orders': OrderMap)
    requires Placed(orders, b, coming, retired) && EngineStep(v, b, coming, b', fills, dropped)
    requires After(orders, fills, closed, orders')
    requires forall id :: id in closed ==> BookSum(LiveOf(id), b') == 0
    ensures Placed(orders', b', [], retired + dropped)
  {
    forall id: OrderId
      ensures BookSum(LiveOf(id), b') + Sum(LiveOf(id), [])
              + Sum(LiveOf(id), retired + dropped) <= (if id in orders' then 1 else 0)
      ensures id in orders' ==>
              orders'[id].qty
              == BookSum(OpenOf(id), b') + Sum(OpenOf(id), []) + orders'[id].filled + Sum(OpenOf(id), retired + dropped)
      ensures id in orders' && BookSum(LiveOf(id), b') + Sum(LiveOf(id), []) > 0 ==> orders'[id].state == Accepted
    {
      PlacedOne(v, orders, b, coming, retired, b', fills, dropped, closed, orders', id);
    }
    forall id: OrderId, q: nat | id in orders' && BookSum(ExactAon(id, q), b') + Sum(ExactAon(id, q), [])
                                 + Sum(ExactAon(id, q), retired + dropped) > 0
      ensures orders'[id].filled == 0
    {
      PlacedAon(v, orders, b, coming, retired, b', fills, dropped, closed, orders', id, q);
    }
  }

  // ---- The history ----

  /** Every fill so far, and what it cost, is on the record of both its orders, one a buy and one a
      sell. */
  ghost predicate Recorded(orders: OrderMap, history: seq<Callback>) {
    && (forall id :: FillsOf(history, id) == (if id in orders then orders[id].filled else 0))
    && (forall id :: CostOf(history, id) == (if id in orders then orders[id].filledCost else 0))
    && (forall i :: 0 <= i < |history| && history[i].FillCb? ==> Pairs(orders, history[i]))
  }

  predicate Pairs(orders: OrderMap, cb: Callback) {
    cb.FillCb? && cb.order in orders && cb.matched in orders && orders[cb.order].isBuy != orders[cb.matched].isBuy
  }

  lemma {:induction false} TradedMeansFills(fills: seq<Callback>, i: nat)
    requires i < |fills| && fills[i].FillCb? && fills[i].quantity > 0
    ensures FillsOf(fills, fills[i].order) > 0 && FillsOf(fills, fills[i].matched) > 0
  {
    if i > 0 {
      TradedMeansFills(fills[1..], i - 1);
    }
  }

  /** Whoever trades in an engine step was live before it. */
  lemma TradersAreKnown(v: View, orders: OrderMap, b: Book, coming: seq<Tracker>, retired: seq<Tracker>, b': Book,
                        fills: seq<Callback>, dropped: seq<Tracker>, i: nat)
    requires Placed(orders, b, coming, retired) && EngineStep(v, b, coming, b', fills, dropped) && i < |fills|
    ensures fills[i].FillCb? && fills[i].order in orders && fills[i].matched in orders
  {
    assert GoodTrade(v, fills[i]);
    TradedMeansFills(fills, i);
    forall id | FillsOf(fills, id) > 0
      ensures id in orders
    {
      TotalsRelate(id, 0, b, coming);
      assert BookSum(LiveOf(id), b) + Sum(LiveOf(id), coming)
             + Sum(LiveOf(id), retired) <= (if id in orders then 1 else 0);
    }
  }

  /** The callbacks of a request: its fills, and others that trade nothing. */
  ghost predicate Carries(cbs: seq<Callback>, fills: seq<Callback>) {
    && (forall id :: FillsOf(cbs, id) == FillsOf(fills, id) && CostOf(cbs, id) == CostOf(fills, id))
    && (forall i :: 0 <= i < |cbs| && cbs[i].FillCb? ==> cbs[i] in fills)
  }

  /** What one order has traded, and what it came to, after an engine step. */
  lemma AccountAfter(v: View, orders: OrderMap, b: Book, coming: seq<Tracker>, retired: seq<Tracker>, b': Book,
                     fills: seq<Callback>, dropped: seq<Tracker>, closed: set<OrderId>, orders': OrderMap,
                     history: seq<Callback>, cbs: seq<Callback>, id: OrderId)
    requires Placed(orders, b, coming, retired) && EngineStep(v, b, coming, b', fills, dropped)
    requires After(orders, fills, closed, orders')
    requires Recorded(orders, history) && Carries(cbs, fills)
    ensures FillsOf(history + cbs, id) == (if id in orders' then orders'[id].filled else 0)
    ensures CostOf(history + cbs, id) == (if id in orders' then orders'[id].filledCost else 0)
  {
    hide BookSum, BookOk, Pairs;
    FillsOfAppend(history, cbs, id);
    CostOfAppend(history, cbs, id);
    if id in orders {
      assert FilledBy(orders[id], orders'[id], FillsOf(fills, id), CostOf(fills, id));
    } else {
      assert BookSum(LiveOf(id), b) + Sum(LiveOf(id), coming) + Sum(LiveOf(id), retired) <= 0;
      TotalsRelate(id, 0, b, coming);
      NoFillsNoCost(fills, id);
    }
  }

  lemma RecordedAfter(v: View, orders: OrderMap, b: Book, coming: seq<Tracker>, retired: seq<Tracker>, b': Book,
                      fills: seq<Callback>,
                      dropped: seq<Tracker>, closed: set<OrderId>, orders': OrderMap, history: seq<Callback>,
                          cbs: seq<Callback>)
    requires Placed(orders, b, coming, retired) && EngineStep(v, b, coming, b', fills, dropped)
    requires After(orders, fills, closed, orders')
    requires Recorded(orders, history) && Carries(cbs, fills)
    requires forall id :: IsBuy(v.denv, id) == IsBuy(orders, id)
    ensures Recorded(orders', history + cbs)
  {
    hide BookSum, BookOk, Placed, FillsOf, CostOf;
    forall id: OrderId
      ensures FillsOf(history + cbs, id) == (if id in orders' then orders'[id].filled else 0)
      ensures CostOf(history + cbs, id) == (if id in orders' then orders'[id].filledCost else 0)
    {
      AccountAfter(v, orders, b, coming, retired, b', fills, dropped, closed, orders', history, cbs, id);
    }
    forall i | 0 <= i < |history + cbs| && (history + cbs)[i].FillCb?
      ensures Pairs(orders', (history + cbs)[i])
    {
      var cb := (history + cbs)[i];
      if i < |history| {
        assert Pairs(orders, history[i]);
      } else {
        assert cb == cbs[i - |history|];
        var j :| 0 <= j < |fills| && fills[j] == cb;
        assert GoodTrade(v, fills[j]);
        TradersAreKnown(v, orders, b, coming, retired, b', fills, dropped, j);
      }
      assert FilledBy(orders[cb.order], orders'[cb.order], FillsOf(fills, cb.order), CostOf(fills, cb.order));
      assert FilledBy(orders[cb.matched], orders'[cb.matched], FillsOf(fills, cb.matched), CostOf(fills, cb.matched));
    }
  }

  // ---- The invariant ----

  /** The side of the all-or-none market orders, when they are all on one. */
  function BareSide(orders: OrderMap, ts: seq<Tracker>): Option<bool> {
    if ts == [] then None
    else if ts[0].aon && PriceOf(orders, ts[0].ptr) == MARKET_ORDER_PRICE then Some(IsBuy(orders, ts[0].ptr))
    else BareSide(orders, ts[1..])
  }

  /** The orders of the book, and those about to join them, through one order map. */
  function Seen(orders: OrderMap, b: Book, coming: seq<Tracker> := []): View {
    View(orders, orders, b.stops.marketPrice != MARKET_ORDER_PRICE, BareSide(orders, BookLive(b) + coming))
  }

  lemma {:induction false} BareSideIs(v: View, orders: OrderMap, ts: seq<Tracker>)
    requires !v.priced && v.env == v.denv == orders && forall k :: 0 <= k < |ts| ==> Fair(v, ts[k])
    ensures BareSide(orders, ts).Some? ==> BareSide(orders, ts) == v.bare
    ensures BareSide(orders, ts).None? ==> forall k :: 0 <= k < |ts| && ts[k].aon ==>
            PriceOf(orders, ts[k].ptr) != MARKET_ORDER_PRICE
    decreases |ts|
  {
    if ts != [] {
      assert Fair(v, ts[0]);
      assert forall k :: 0 <= k < |ts[1..]| ==> ts[1..][k] == ts[k + 1];
      BareSideIs(v, orders, ts[1..]);
    }
  }

  lemma {:induction false} BareSideAppend(orders: OrderMap, ts: seq<Tracker>, t: Tracker)
    ensures BareSide(orders, ts + [t]) == if BareSide(orders, ts).Some? then BareSide(orders, ts)
            else BareSide(orders, [t])
    ensures BareSide(orders, ts + []) == BareSide(orders, ts)
    decreases |ts|
  {
    assert ts + [] == ts;
    if ts == [] {
      assert ts + [t] == [t];
    } else {
      assert (ts + [t])[1..] == ts[1..] + [t];
      BareSideAppend(orders, ts[1..], t);
    }
  }

  /** Every order of a book that is in order is a fair one. */
  lemma BookIsFair(v: View, b: Book)
    requires BookOk(v, b)
    ensures forall k :: 0 <= k < |BookLive(b)| ==> Fair(v, BookLive(b)[k])
  {
    forall k | 0 <= k < |BookLive(b)|
      ensures Fair(v, BookLive(b)[k])
    {
      var t := BookLive(b)[k];
      if t in Trackers(b.bids) {
        var i :| 0 <= i < |b.bids| && Trackers(b.bids)[i] == t;
        assert Resting(v, b.bids[i], true);
      } else if t in Trackers(b.asks) {
        var i :| 0 <= i < |b.asks| && Trackers(b.asks)[i] == t;
        assert Resting(v, b.asks[i], false);
      } else {
        var waits := Trackers(b.stops.stopBids) + Trackers(b.stops.stopAsks) + b.stops.pending;
        assert AllWait(v, waits);
        var i :| 0 <= i < |waits| && waits[i] == t;
        assert Waits(v, waits[i]);
      }
    }
  }

  /** A book may as well be looked at knowing exactly where its all-or-none market orders are. */
  lemma FairOnceKnown(v: View, b: Book, t: Tracker)
    requires BookOk(v, b) && v.env == v.denv && v.priced == (b.stops.marketPrice != MARKET_ORDER_PRICE)
    requires t in BookLive(b)
    ensures Fair(Seen(v.env, b), t)
  {
    hide BookOk, BookLive, Fair;
    BookIsFair(v, b);
    BareSideAppend(v.env, BookLive(b), t);
    var k :| 0 <= k < |BookLive(b)| && BookLive(b)[k] == t;
    if !v.priced {
      BareSideIs(v, v.env, BookLive(b));
    }
    FairWithin(v, Seen(v.env, b), t);
  }

  lemma FairWithin(v: View, v': View, t: Tracker)
    requires Fair(v, t) && v'.env == v.env && v'.denv == v.denv && v'.priced == v.priced
    requires v.priced || v'.bare == v.bare || (v'.bare.None? && (t.aon ==> PriceOf(v.env, t.ptr) != MARKET_ORDER_PRICE))
    ensures Fair(v', t)
  {
  }

  lemma KnownBook(v: View, b: Book)
    requires BookOk(v, b) && v.env == v.denv && v.priced == (b.stops.marketPrice != MARKET_ORDER_PRICE)
    ensures BookOk(Seen(v.env, b), b)
  {
    hide Fair, Seen;
    var v' := Seen(v.env, b);
    assert v'.env == v.env == v'.denv && v'.priced == v.priced by { SeenIs(v.env, b); }
    forall t | t in BookLive(b)
      ensures Fair(v', t)
    {
      FairOnceKnown(v, b, t);
    }
    FairSide(v, v', b, true);
    FairSide(v, v', b, false);
    FairWaiters(v, v', b);
  }

  lemma SeenIs(orders: OrderMap, b: Book)
    ensures var v := Seen(orders, b);
            v.env == v.denv == orders && v.priced == (b.stops.marketPrice != MARKET_ORDER_PRICE)
  {
  }

  lemma FairSide(v: View, v': View, b: Book, buy: bool)
    requires SideOk(v, b.Side(buy), buy) && v'.env == v.env && v'.denv == v.denv && forall t :: t in BookLive(b) ==>
             Fair(v', t)
    ensures SideOk(v', b.Side(buy), buy)
  {
    hide Fair;
    forall k | 0 <= k < |b.Side(buy)|
      ensures Resting(v', b.Side(buy)[k], buy)
    {
      assert Resting(v, b.Side(buy)[k], buy);
      assert Trackers(b.Side(buy))[k] in BookLive(b);
    }
  }

  lemma FairWaiters(v: View, v': View, b: Book)
    requires StopsOk(v, b.stops) && v'.env == v.env && v'.denv == v.denv && v'.priced == v.priced &&
             forall t :: t in BookLive(b) ==> Fair(v', t)
    ensures StopsOk(v', b.stops)
  {
    hide Fair;
    assert forall t :: t in Trackers(b.stops.stopBids) || t in Trackers(b.stops.stopAsks) || t in b.stops.pending ==>
           t in BookLive(b);
    FairWait(v, v', Trackers(b.stops.stopBids));
    FairWait(v, v', Trackers(b.stops.stopAsks));
    FairWait(v, v', b.stops.pending);
  }

  lemma FairWait(v: View, v': View, ts: seq<Tracker>)
    requires AllWait(v, ts) && v'.env == v.env && v'.denv == v.denv && forall t :: t in ts ==> Fair(v', t)
    ensures AllWait(v', ts)
  {
    hide Fair;
    forall k | 0 <= k < |ts|
      ensures Waits(v', ts[k])
    {
      assert Waits(v, ts[k]) && ts[k] in ts;
    }
  }

  ghost predicate Inv(s: Sys) {
    && BookOk(Seen(s.orders, s.book), s.book)
    && Placed(s.orders, s.book, [], s.retired)
    && Recorded(s.orders, s.history)
  }

  /** The book stays in order when it is looked at through order maps that say the same
      about its orders. */
  ghost predicate SameForLive(v: View, v': View, b: Book) {
    && v'.bare == v.bare && (v.priced ==> v'.priced) && (v'.priced ==> b.stops.marketPrice != MARKET_ORDER_PRICE)
    && forall id :: BookSum(LiveOf(id), b) > 0 ==>
         && (PriceOf(v.env, id) != MARKET_ORDER_PRICE ==> PriceOf(v'.env, id) != MARKET_ORDER_PRICE)
         && (PriceOf(v.env, id) == PriceOf(v.denv, id) ==> PriceOf(v'.env, id) == PriceOf(v'.denv, id))
         && PriceOf(v'.denv, id) == PriceOf(v.denv, id)
         && IsBuy(v'.denv, id) == IsBuy(v.denv, id)
  }

  lemma LiveInBook(b: Book, ts: seq<Tracker>, k: nat)
    requires k < |ts| && ts[k].openQty > 0
    requires ts == Trackers(b.bids) || ts == Trackers(b.asks) || ts == Trackers(b.stops.stopBids) ||
             ts == Trackers(b.stops.stopAsks) || ts == b.stops.pending
    ensures BookSum(LiveOf(ts[k].ptr), b) > 0
  {
    SumAtLeast(LiveOf(ts[k].ptr), ts, k);
  }

  lemma SideTransfers(v: View, v': View, b: Book, buy: bool)
    requires SideOk(v, b.Side(buy), buy) && SameForLive(v, v', b)
    ensures SideOk(v', b.Side(buy), buy)
  {
    var s := b.Side(buy);
    forall k | 0 <= k < |s|
      ensures Resting(v', s[k], buy)
    {
      assert Resting(v, s[k], buy);
      LiveInBook(b, Trackers(s), k);
    }
  }

  lemma WaitersTransfer(v: View, v': View, b: Book, ts: seq<Tracker>)
    requires AllWait(v, ts) && SameForLive(v, v', b)
    requires ts == Trackers(b.stops.stopBids) || ts == Trackers(b.stops.stopAsks) || ts == b.stops.pending
    ensures AllWait(v', ts)
  {
    forall k | 0 <= k < |ts|
      ensures Waits(v', ts[k])
    {
      assert Waits(v, ts[k]);
      LiveInBook(b, ts, k);
    }
  }

  lemma BookTransfers(v: View, v': View, b: Book)
    requires BookOk(v, b) && SameForLive(v, v', b)
    ensures BookOk(v', b)
  {
    SideTransfers(v, v', b, true);
    SideTransfers(v, v', b, false);
    WaitersTransfer(v, v', b, Trackers(b.stops.stopBids));
    WaitersTransfer(v, v', b, Trackers(b.stops.stopAsks));
    WaitersTransfer(v, v', b, b.stops.pending);
  }
}
