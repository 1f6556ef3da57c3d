/** Every fill the engine emits pairs a buy with a sell, and respects both limits. */
module Trades {
  import opened Prices
  import opened Orders
  import opened Books
  import opened Matching
  import opened Faces
  import opened Accounting
  import opened BookRuns
  import opened Cascade

  /** Is this price acceptable to the order: at or below a buyer's limit, at or above a
      seller's? A market order accepts any. */
  predicate Acceptable(env: OrderMap, id: OrderId, price: nat) {
    PriceOf(env, id) == MARKET_ORDER_PRICE || (if IsBuy(env, id) then price <= PriceOf(env, id)
                                               else PriceOf(env, id) <= price)
  }

  /** The order whose price a fill is made at has that price after the request, too; and a fill at
      the market price is between market orders. */
  predicate PricedAsNow(v: View, cb: Callback)
    requires cb.FillCb?
  {
    var current, inbound := PriceOf(v.env, cb.matched), PriceOf(v.env, cb.order);
    if current != MARKET_ORDER_PRICE then current == PriceOf(v.denv, cb.matched)
    else if inbound != MARKET_ORDER_PRICE then inbound == PriceOf(v.denv, cb.order)
    else PriceOf(v.denv, cb.matched) == PriceOf(v.denv, cb.order) == MARKET_ORDER_PRICE
  }

  predicate BothAccept(env: OrderMap, cb: Callback)
    requires cb.FillCb?
  {
    Acceptable(env, cb.order, cb.price) && Acceptable(env, cb.matched, cb.price)
  }

  /** A fill pairs a buy with a sell, at a price both accept unless it is the price of an order
      that is being replaced. */
  ghost predicate GoodTrade(v: View, cb: Callback) {
    && cb.FillCb? && cb.quantity > 0 && cb.price != MARKET_ORDER_PRICE
    && IsBuy(v.denv, cb.order) != IsBuy(v.denv, cb.matched)
    && (PricedAsNow(v, cb) ==> BothAccept(v.denv, cb))
  }

  ghost predicate GoodTrades(v: View, cbs: seq<Callback>) {
    forall i :: 0 <= i < |cbs| ==> GoodTrade(v, cbs[i])
  }

  lemma ValidFillIsGood(v: View, price: nat, f: Face, cb: Callback, buySide: bool)
    requires ValidFill(v.env, price, f, cb) && SideOk(v, f.side, buySide)
    requires IsBuy(v.denv, f.inbound.ptr) == !buySide && price == PriceOf(v.denv, f.inbound.ptr)
    ensures GoodTrade(v, cb)
  {
    assert Resting(v, f.side[IndexOf(f.side, cb.matched)], buySide);
  }

  lemma {:induction false} RunIsGood(v: View, price: nat, f: Face, fills: seq<Callback>, g: Face, buySide: bool)
    requires Runs(v.env, price, f, fills, g) && SideOk(v, f.side, buySide)
    requires IsBuy(v.denv, f.inbound.ptr) == !buySide && price == PriceOf(v.denv, f.inbound.ptr)
    ensures GoodTrades(v, fills)
    decreases |fills|
  {
    if fills != [] {
      var cb := fills[0];
      ValidFillIsGood(v, price, f, cb, buySide);
      SettleShrinks(f.side, IndexOf(f.side, cb.matched), cb.quantity, buySide);
      ComesFromKeepsSide(v, ApplyFill(f, cb).side, f.side, buySide);
      RunIsGood(v, price, ApplyFill(f, cb), fills[1..], g, buySide);
    }
  }

  lemma MatchIsGood(v: View, t: Tracker, price: nat, side: seq<Entry>, buySide: bool, sb: StopBook)
    requires SideOk(v, side, buySide) && Fair(v, t) && (v.priced ==> sb.marketPrice != MARKET_ORDER_PRICE)
    requires IsBuy(v.denv, t.ptr) == !buySide && price == PriceOf(v.denv, t.ptr)
    ensures GoodTrades(v, MatchOrder(v.env, t, price, side, sb).fills)
  {
    var m := MatchOrder(v.env, t, price, side, sb);
    SideIsOpposed(v, t, side, buySide);
    MatchOrderRuns(v, t, price, side, sb);
    RunIsGood(v, price, Face(t, side, sb), m.fills, Face(m.inbound, m.side, m.stops), buySide);
  }

  lemma {:induction false} RecheckIsGood(v: View, ids: seq<OrderId>, aons: seq<Entry>, market: seq<Entry>,
                                         buySide: bool, sb: StopBook)
    requires PairOk(v, aons, market, buySide, sb)
    ensures GoodTrades(v, CheckDeferred(v.env, ids, aons, market, sb).fills)
    decreases |ids|
  {
    if ids != [] {
      var k := IndexOf(aons, ids[0]);
      if k == |aons| {
        RecheckIsGood(v, ids[1..], aons, market, buySide, sb);
      } else {
        assert Resting(v, aons[k], buySide);
        MatchIsGood(v, aons[k].tracker, aons[k].key.price, market, !buySide, sb);
        RecheckStep(v, aons, k, market, buySide, sb, 0, LiveOf(0));
        var m := MatchOrder(v.env, aons[k].tracker, aons[k].key.price, market, sb);
        RecheckIsGood(v, ids[1..], Settle(aons, k, m.inbound), m.side, buySide, m.stops);
      }
    }
  }

  /** Every fill of a submission pairs opposite sides at a price both accept. */
  lemma AddOrderIsGood(v: View, b: Book, t: Tracker)
    requires Submittable(v, b, t)
    ensures GoodTrades(v, AddOrder(v.env, b, t, PriceOf(v.denv, t.ptr)).fills)
  {
    hide Matching.MatchOrder, Matching.CheckDeferred;
    var buy, price := IsBuy(v.denv, t.ptr), PriceOf(v.denv, t.ptr);
    MatchIsGood(v, t, price, b.Side(!buy), !buy, b.stops);
    FirstMatchKeeps(v, t, price, b.Side(!buy), !buy, b.stops, 0, LiveOf(0));
    var m := MatchOrder(v.env, t, price, b.Side(!buy), b.stops);
    if m.inbound.openQty > 0 && !m.inbound.ioc {
      var e := Entry(ComparablePrice(buy, price), m.inbound);
      InsertKeepsSideOk(v, b.Side(buy), e, buy);
      RecheckIsGood(v, m.deferred, m.side, Insert(b.Side(buy), e), !buy, m.stops);
    }
  }

  lemma {:induction false} SubmitAllIsGood(v: View, b: Book, waiting: seq<Tracker>)
    requires QueueOk(v, b, waiting)
    ensures GoodTrades(v, SubmitAll(v.env, b, waiting).fills)
    decreases |waiting|
  {
    hide AddOrder, QueueOk;
    if waiting != [] {
      HeadIsSubmittable(v, b, waiting);
      AddOrderIsGood(v, b, waiting[0]);
      SubmitOneKeeps(v, b, waiting);
      SubmitAllIsGood(v, AddOrder(v.env, b, waiting[0], PriceOf(v.env, waiting[0].ptr)).book, waiting[1..]);
    }
  }

  lemma {:induction false} SubmitPendingIsGood(v: View, b: Book)
    requires QueueOk(v, b, [])
    ensures GoodTrades(v, SubmitPending(v.env, b).fills)
    decreases b.stops.Load()
  {
    if b.stops.pending != [] {
      EmptiedIsQueue(v, b);
      SubmitAllIsGood(v, Emptied(b), b.stops.pending);
      SubmittedIsQueue(v, b);
      SubmitPendingIsGood(v, SubmitAll(v.env, Emptied(b), b.stops.pending).book);
    }
  }

  // ---- Volumes ----

  function Volume(env: OrderMap, buySide: bool, cbs: seq<Callback>): nat {
    if cbs == [] then 0
    else
      var cb := cbs[0];
      (if cb.FillCb? && IsBuy(env, cb.order) == buySide then cb.quantity else 0)
      + (if cb.FillCb? && IsBuy(env, cb.matched) == buySide then cb.quantity else 0)
      + Volume(env, buySide, cbs[1..])
  }

  /** What one side pays, or is paid. */
  function Turnover(env: OrderMap, buySide: bool, cbs: seq<Callback>): nat {
    if cbs == [] then 0
    else
      var cb := cbs[0];
      (if cb.FillCb? && IsBuy(env, cb.order) == buySide then cb.quantity * cb.price else 0)
      + (if cb.FillCb? && IsBuy(env, cb.matched) == buySide then cb.quantity * cb.price else 0)
      + Turnover(env, buySide, cbs[1..])
  }

  /** As much is bought as is sold. */
  lemma {:induction false} BoughtEqualsSold(v: View, cbs: seq<Callback>)
    requires GoodTrades(v, cbs)
    ensures Volume(v.denv, true, cbs) == Volume(v.denv, false, cbs)
  {
    if cbs != [] {
      assert GoodTrade(v, cbs[0]);
      BoughtEqualsSold(v, cbs[1..]);
    }
  }
}
