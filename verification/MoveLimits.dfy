/** Replacements that change a price: exactly when every fill is within the new limit. */
module MoveLimits {
  import opened Prices
  import opened Orders
  import opened Books
  import opened Faces
  import opened Matching
  import opened Accounting
  import opened BookRuns
  import opened Priority
  import opened Trades
  import opened DepthSpec
  import opened Requests
  import opened System
  import opened RequestRuns
  import opened RequestInvariants
  import opened Results
  import opened UncrossedResults
  import opened LimitResults

  /** The price at which the order trades with market orders while it is replaced: the one it had, or
      the market's. */
  function OldPrice(s: Sys, id: OrderId): nat {
    if PriceOf(s.orders, id) != MARKET_ORDER_PRICE then PriceOf(s.orders, id) else s.book.stops.marketPrice
  }

  /** Something of the order is left to be matched again. */
  predicate Resubmits(s: Sys, r: Request)
    requires r.ReplaceReq?
  {
    var side := s.book.Side(IsBuy(s.orders, r.id));
    var k := FindOnMarket(s.orders, s.book, r.id);
    k < |side| && side[k].tracker.openQty + ClipDelta(r.delta, side[k].tracker.openQty) > 0
  }

  /** The order meets a market order, at an old price that its new limit does not accept. */
  predicate BreaksLimit(s: Sys, r: Request)
    requires r.ReplaceReq?
  {
    && Resubmits(s, r) && HasMarketOrder(s.book.Side(!IsBuy(s.orders, r.id)))
    && OldPrice(s, r.id) != MARKET_ORDER_PRICE && !Acceptable(OrdersWithNewPrice(s, r), r.id, OldPrice(s, r.id))
  }

  /** The keys of the nodes are the prices of their orders. */
  ghost predicate Keyed(env: OrderMap, side: seq<Entry>) {
    forall k :: 0 <= k < |side| ==> side[k].key.price == PriceOf(env, side[k].tracker.ptr)
  }

  ghost predicate NoMarket(side: seq<Entry>) {
    forall k :: 0 <= k < |side| ==> side[k].key.price != MARKET_ORDER_PRICE
  }

  /** Trades with market orders are at `p`: the inbound order's price, or the market's as long as there
      are market orders to come. */
  ghost predicate TradesAt(env: OrderMap, inbound: OrderId, rest: seq<Entry>, sb: StopBook, p: nat) {
    if PriceOf(env, inbound) != MARKET_ORDER_PRICE then p == PriceOf(env, inbound)
    else sb.marketPrice == p || NoMarket(rest)
  }

  ghost predicate MarketFillsAt(env: OrderMap, fills: seq<Callback>, p: nat) {
    forall i :: 0 <= i < |fills| ==>
      && fills[i].FillCb? && fills[i].price != MARKET_ORDER_PRICE
      && (PriceOf(env, fills[i].matched) == MARKET_ORDER_PRICE ==> fills[i].price == p)
  }

  /** The market orders of a side come first. */
  lemma MarketFirst(side: seq<Entry>, buySide: bool)
    requires Sorted(side) && OneSided(side, buySide) && side != [] && side[0].key.price != MARKET_ORDER_PRICE
    ensures NoMarket(side)
  {
    forall k | 0 <= k < |side|
      ensures side[k].key.price != MARKET_ORDER_PRICE
    {
      assert k == 0 || !side[k].key.Less(side[0].key);
    }
  }

  lemma OneTradeAt(env: OrderMap, inbound: Tracker, rest: seq<Entry>, buySide: bool, sb: StopBook, p: nat, t: Trade)
    requires Sorted(rest) && OneSided(rest, buySide) && rest != [] && Keyed(env, rest)
    requires TradesAt(env, inbound.ptr, rest, sb, p)
    requires t == CreateTrade(env, inbound, rest[0].tracker, inbound.openQty, sb)
    ensures MarketFillsAt(env, t.fills, p) && TradesAt(env, inbound.ptr, rest[1..], t.stops, p)
  {
    if rest[0].key.price != MARKET_ORDER_PRICE {
      MarketFirst(rest, buySide);
    }
  }

  lemma {:induction false} MarketFills(env: OrderMap, inbound: Tracker, price: nat, done: seq<Entry>, rest: seq<Entry>,
                                       buySide: bool, sb: StopBook, p: nat)
    requires Sorted(rest) && OneSided(rest, buySide) && AllRegular(rest) && Keyed(env, rest)
    requires TradesAt(env, inbound.ptr, rest, sb, p)
    ensures MarketFillsAt(env, MatchRegular(env, inbound, price, done, rest, sb).fills, p)
    decreases |rest|
  {
    hide TradesAt, Matching.CreateTrade, Past;
    if rest != [] && inbound.openQty != 0 && rest[0].key.Matches(price) {
      var t := CreateTrade(env, inbound, rest[0].tracker, inbound.openQty, sb);
      OneTradeAt(env, inbound, rest, buySide, sb, p, t);
      MarketFills(env, t.inbound, price, Past(done, rest[0], t.current), rest[1..], buySide, t.stops, p);
    }
  }

  /** A market order on the other side is the first to trade, at that price if there is one. */
  lemma FirstFillAt(env: OrderMap, inbound: Tracker, price: nat, side: seq<Entry>, buySide: bool, sb: StopBook, p: nat)
    requires Sorted(side) && OneSided(side, buySide) && AllRegular(side) && AllOpen(side) && Keyed(env, side)
    requires HasMarketOrder(side) && TradesAt(env, inbound.ptr, side, sb, p)
    requires inbound.openQty > 0 && p != MARKET_ORDER_PRICE
    ensures var fills := MatchRegular(env, inbound, price, [], side, sb).fills;
            fills != [] && fills[0].FillCb? && fills[0].order == inbound.ptr && fills[0].price == p
  {
    hide MatchRegular, Matching.CreateTrade;
    var j :| 0 <= j < |side| && IsMarketOrder(side[j]);
    if side[0].key.price != MARKET_ORDER_PRICE {
      MarketFirst(side, buySide);
    }
    FirstTradeAt(env, inbound, side[0].tracker, sb, p);
    FirstFillOf(env, inbound, price, side, sb);
  }

  lemma FirstTradeAt(env: OrderMap, inbound: Tracker, current: Tracker, sb: StopBook, p: nat)
    requires PriceOf(env, current.ptr) == MARKET_ORDER_PRICE && inbound.openQty > 0 && current.openQty > 0
    requires p == CrossPrice(env, inbound.ptr, current.ptr, sb.marketPrice) != MARKET_ORDER_PRICE
    ensures var fills := CreateTrade(env, inbound, current, inbound.openQty, sb).fills;
            fills != [] && fills[0].FillCb? && fills[0].order == inbound.ptr && fills[0].price == p
  {
  }

  lemma FirstFillOf(env: OrderMap, inbound: Tracker, price: nat, side: seq<Entry>, sb: StopBook)
    requires side != [] && inbound.openQty > 0 && !side[0].tracker.aon && side[0].key.Matches(price)
    ensures CreateTrade(env, inbound, side[0].tracker, inbound.openQty, sb).fills
            <= MatchRegular(env, inbound, price, [], side, sb).fills
  {
    hide Matching.CreateTrade;
  }

  // ---- The request ----

  /** What a replacement of a regular order is, when nothing is held back and only regular orders are
      opposite: the callbacks of one match between its replace callback and the book update. */
  ghost predicate Moves(s: Sys, r: Request, t: Tracker, side: seq<Entry>, m: Match) {
    && r.ReplaceReq? && t.ptr == r.id && t.openQty > 0 && !t.aon
    && side == s.book.Side(!IsBuy(s.orders, r.id))
    && m == MatchRegular(s.orders, t, NewPrice(s, r), [], side, s.book.stops)
    && (forall i :: 0 <= i < |Emitted(s, r)| && Emitted(s, r)[i].FillCb? ==> Emitted(s, r)[i] in m.fills)
    && (forall i :: 0 <= i < |m.fills| ==> m.fills[i] in Emitted(s, r))
  }

  lemma MoveIs(s: Sys, r: Request) returns (t: Tracker, side: seq<Entry>, m: Match)
    requires Inv(s) && Proper(s, r) && r.ReplaceReq? && Resubmits(s, r)
    requires Untroubled(s.book.stops) && AllRegular(s.book.Side(!IsBuy(s.orders, r.id)))
    requires !s.book.Side(IsBuy(s.orders, r.id))[FindOnMarket(s.orders, s.book, r.id)].tracker.aon
    ensures Moves(s, r, t, side, m)
  {
    hide Inv, Untroubled, AllRegular, MatchRegular, ReplaceTaken, FindOnMarket;
    var buy := IsBuy(s.orders, r.id);
    var k := FindOnMarket(s.orders, s.book, r.id);
    var rest := s.book.Side(buy)[k].tracker;
    var b, d := Without(s.book, buy, k), ClipDelta(r.delta, rest.openQty);
    FindsExactlyResting(s, r.id, k);
    t := rest.(openQty := rest.openQty + d);
    side := s.book.Side(!buy);
    m := MatchRegular(s.orders, t, NewPrice(s, r), [], side, s.book.stops);
    MovedCallbacks(s.orders, b, rest, d, NewPrice(s, r));
    FillsOfMove(ReplaceCb(rest.ptr, rest.openQty, d, NewPrice(s, r)), m.fills);
  }

  lemma FillsOfMove(head: Callback, fills: seq<Callback>)
    requires head.ReplaceCb?
    ensures var cbs := [head] + fills + [BookUpdateCb];
            && (forall i :: 0 <= i < |cbs| && cbs[i].FillCb? ==> cbs[i] in fills)
            && (forall i :: 0 <= i < |fills| ==> fills[i] in cbs)
  {
    var cbs := [head] + fills + [BookUpdateCb];
    forall i | 0 <= i < |fills|
      ensures fills[i] in cbs
    {
      assert cbs[i + 1] == fills[i];
    }
  }

  /** The orders opposite, as the match sees them. */
  lemma OppositeIs(s: Sys, r: Request, t: Tracker, side: seq<Entry>, m: Match)
    requires Inv(s) && Proper(s, r) && Moves(s, r, t, side, m)
    ensures var buy := IsBuy(s.orders, r.id);
            && Sorted(side) && OneSided(side, !buy) && AllOpen(side) && Keyed(s.orders, side)
            && TradesAt(s.orders, t.ptr, side, s.book.stops, OldPrice(s, r.id))
            && (forall k :: 0 <= k < |side| ==> side[k].tracker.ptr != r.id)
  {
    var buy := IsBuy(s.orders, r.id);
    assert SideOk(Seen(s.orders, s.book), side, !buy);
    forall k | 0 <= k < |side|
      ensures side[k].key.price == PriceOf(s.orders, side[k].tracker.ptr) && side[k].tracker.ptr != r.id
    {
      assert Resting(Seen(s.orders, s.book), side[k], !buy);
    }
  }

  /** Every fill of the match is between the inbound order and an order of the side. */
  lemma {:induction false} RegularTradesWith(env: OrderMap, inbound: Tracker, price: nat, done: seq<Entry>,
                                             rest: seq<Entry>, sb: StopBook)
    requires AllRegular(rest)
    ensures AllTradeWith(rest, inbound.ptr, MatchRegular(env, inbound, price, done, rest, sb).fills)
    decreases |rest|
  {
    if rest != [] && inbound.openQty != 0 && rest[0].key.Matches(price) {
      var t := CreateTrade(env, inbound, rest[0].tracker, inbound.openQty, sb);
      var done', fills := Past(done, rest[0], t.current), MatchRegular(env, inbound, price, done, rest, sb).fills;
      RegularTradesWith(env, t.inbound, price, done', rest[1..], t.stops);
      var later := MatchRegular(env, t.inbound, price, done', rest[1..], t.stops).fills;
      forall i | 0 <= i < |fills|
        ensures TradesWith(rest, inbound.ptr, fills[i])
      {
        if i < |t.fills| {
          assert fills[i] == t.fills[i] && rest[0].tracker.ptr == fills[i].matched;
        } else {
          assert TradesWith(rest[1..], inbound.ptr, later[i - |t.fills|]);
          var j :| 0 <= j < |rest[1..]| && rest[1..][j].tracker.ptr == fills[i].matched;
          assert rest[j + 1].tracker.ptr == fills[i].matched;
        }
      }
    }
  }

  lemma OneOf(v: View, orders: OrderMap, cbs: seq<Callback>, i: nat)
    requires FairlyPriced(v, orders, cbs) && i < |cbs|
    ensures FairlyPriced(v, orders, [cbs[i]])
  {
    assert [cbs[i]][0] == cbs[i];
  }

  lemma NothingMoved(s: Sys, r: Request)
    requires Inv(s) && r.ReplaceReq? && !Resubmits(s, r) && Untroubled(s.book.stops)
    ensures WithinLimits(OrdersWithNewPrice(s, r), Emitted(s, r))
  {
    hide Inv, ReplaceTaken, OrdersWithNewPrice, FindOnMarket;
    var buy := IsBuy(s.orders, r.id);
    var k := FindOnMarket(s.orders, s.book, r.id);
    if k < |s.book.Side(buy)| {
      var t := s.book.Side(buy)[k].tracker;
      NothingTraded(s.orders, Without(s.book, buy, k), t, ClipDelta(r.delta, t.openQty), NewPrice(s, r));
    }
  }

  lemma NewPriceElsewhere(s: Sys, r: Request, id: OrderId)
    requires r.ReplaceReq? && id != r.id
    ensures PriceOf(OrdersWithNewPrice(s, r), id) == PriceOf(s.orders, id) && OrdersAt(s, r) == s.orders
  {
  }

  lemma OneFillKept(s: Sys, r: Request, t: Tracker, side: seq<Entry>, m: Match, cb: Callback)
    requires r.ReplaceReq? && t.ptr == r.id && side == s.book.Side(!IsBuy(s.orders, r.id)) && AllRegular(side)
    requires Keyed(s.orders, side) && forall k :: 0 <= k < |side| ==> side[k].tracker.ptr != r.id
    requires Resubmits(s, r) && !BreaksLimit(s, r) && FairlyPriced(LimitView(s, r), OrdersWithNewPrice(s, r), [cb])
    requires TradesWith(side, t.ptr, cb) && MarketFillsAt(s.orders, [cb], OldPrice(s, r.id))
    ensures BothAccept(OrdersWithNewPrice(s, r), cb)
  {
    hide OrdersWithNewPrice, Resubmits, OldPrice;
    var j :| 0 <= j < |side| && side[j].tracker.ptr == cb.matched;
    NewPriceElsewhere(s, r, cb.matched);
    assert [cb][0] == cb;
    if side[j].key.price != MARKET_ORDER_PRICE {
      assert PricedAsNow(LimitView(s, r), cb);
    } else {
      assert IsMarketOrder(side[j]);
    }
  }

  lemma MoveBreaks(s: Sys, r: Request, t: Tracker, side: seq<Entry>, m: Match)
    requires Inv(s) && Proper(s, r) && Moves(s, r, t, side, m) && AllRegular(side) && BreaksLimit(s, r)
    ensures !WithinLimits(OrdersWithNewPrice(s, r), Emitted(s, r))
  {
    hide Inv, Proper, Emitted, OrdersWithNewPrice, Acceptable, Resubmits, MatchRegular, TradesAt, Sorted, OneSided,
         Keyed, AllOpen;
    OppositeIs(s, r, t, side, m);
    FirstFillAt(s.orders, t, NewPrice(s, r), side, !IsBuy(s.orders, r.id), s.book.stops, OldPrice(s, r.id));
    assert m.fills[0] in Emitted(s, r);
    assert !BothAccept(OrdersWithNewPrice(s, r), m.fills[0]);
  }

  lemma MoveKeeps(s: Sys, r: Request, t: Tracker, side: seq<Entry>, m: Match)
    requires Inv(s) && Proper(s, r) && Moves(s, r, t, side, m) && AllRegular(side)
    requires Resubmits(s, r) && !BreaksLimit(s, r)
    ensures WithinLimits(OrdersWithNewPrice(s, r), Emitted(s, r))
  {
    hide Inv, Proper, Emitted, OrdersWithNewPrice, Acceptable, Resubmits, MatchRegular, TradesAt, Sorted, OneSided,
         FairlyPriced, AllOpen;
    RequestFairlyPriced(s, r);
    OppositeIs(s, r, t, side, m);
    MarketFills(s.orders, t, NewPrice(s, r), [], side, !IsBuy(s.orders, r.id), s.book.stops, OldPrice(s, r.id));
    RegularTradesWith(s.orders, t, NewPrice(s, r), [], side, s.book.stops);
    forall i | 0 <= i < |Emitted(s, r)| && Emitted(s, r)[i].FillCb?
      ensures BothAccept(OrdersWithNewPrice(s, r), Emitted(s, r)[i])
    {
      var cb := Emitted(s, r)[i];
      var j :| 0 <= j < |m.fills| && m.fills[j] == cb;
      OneOf(LimitView(s, r), OrdersWithNewPrice(s, r), Emitted(s, r), i);
      OneFillKept(s, r, t, side, m, cb);
    }
  }

  /** With nothing held or pending, and only regular orders opposite, the fills of a replaced regular
      order are within its new limit if and only if it does not meet a market order at an old price
      that the new limit does not accept. */
  lemma MoveWithinLimitsExactlyWhen(s: Sys, r: Request)
    requires Inv(s) && Proper(s, r) && r.ReplaceReq?
    requires Untroubled(s.book.stops) && AllRegular(s.book.Side(!IsBuy(s.orders, r.id)))
    requires Resubmits(s, r) ==>
               !s.book.Side(IsBuy(s.orders, r.id))[FindOnMarket(s.orders, s.book, r.id)].tracker.aon
    ensures WithinLimits(OrdersWithNewPrice(s, r), Emitted(s, r)) <==> !BreaksLimit(s, r)
  {
    hide Inv, Proper, Emitted, OrdersWithNewPrice, WithinLimits, FairlyPriced, Acceptable;
    if Resubmits(s, r) {
      var t, side, m := MoveIs(s, r);
      if BreaksLimit(s, r) {
        MoveBreaks(s, r, t, side, m);
      } else {
        MoveKeeps(s, r, t, side, m);
      }
    } else {
      NothingMoved(s, r);
    }
  }

  const PRICED_ASKS := Book([], [RESTING_ASK], StopBook(100, [], [], []))

  lemma BidTrades()
    ensures MatchRegular(TWO_ORDERS, RESTING_BID, 90, [], [RESTING_ASK], PRICED_ASKS.stops).fills
         == [FillCb(1, 2, 10, 100, true, true)]
  {
    var t := CreateTrade(TWO_ORDERS, RESTING_BID, RESTING_ASK.tracker, 10, PRICED_ASKS.stops);
    assert t.fills == [FillCb(1, 2, 10, 100, true, true)] && t.inbound.openQty == 0;
    assert [RESTING_ASK][1..] == [] && t.fills + [] == t.fills;
  }

  /** A bid and an ask for 10 rest without a limit, and the market price is set to 100 from outside.
      Given the limit 90, the bid trades with the ask at 100. */
  lemma MarketPriceBreaksLimit()
    ensures var b := Book(TWO_SIDES.bids, TWO_SIDES.asks, PRICED_ASKS.stops);
            FillCb(1, 2, 10, 100, true, true) in Replace(TWO_ORDERS, b, 1, 0, 90).cbs
    ensures !Acceptable(TWO_ORDERS[1 := TWO_ORDERS[1].(price := 90)], 1, 100)
  {
    hide MatchRegular, ReplaceTaken;
    var b := Book(TWO_SIDES.bids, TWO_SIDES.asks, PRICED_ASKS.stops);
    assert FindOnMarket(TWO_ORDERS, b, 1) == 0;
    assert Without(b, true, 0) == PRICED_ASKS;
    assert RESTING_BID.(openQty := 10 + 0) == RESTING_BID;
    MovedCallbacks(TWO_ORDERS, PRICED_ASKS, RESTING_BID, 0, 90);
    BidTrades();
    var cbs := [ReplaceCb(1, 10, 0, 90)] + [FillCb(1, 2, 10, 100, true, true)] + [BookUpdateCb];
    assert cbs[1] == FillCb(1, 2, 10, 100, true, true);
    assert Replace(TWO_ORDERS, b, 1, 0, 90).cbs == cbs;
  }
}
