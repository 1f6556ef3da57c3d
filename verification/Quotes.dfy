/** The prices of the fills, in the order in which they are made: each resting order's own price, or
    without one the inbound order's, or without one the price of the trade before; and the market
    price and the stop orders follow them trade by trade. */
module Quotes {
  import opened Prices
  import opened Orders
  import opened Books
  import opened Matching
  import opened Cascade

  /** The price of a fill, at the market price of the moment. */
  predicate TradedAt(env: OrderMap, cb: Callback, market: nat) {
    && cb.FillCb? && cb.price != MARKET_ORDER_PRICE
    && var current, inbound := PriceOf(env, cb.matched), PriceOf(env, cb.order);
    && (current != MARKET_ORDER_PRICE ==> cb.price == current)
    && (current == MARKET_ORDER_PRICE && inbound != MARKET_ORDER_PRICE ==> cb.price == inbound)
    && (current == MARKET_ORDER_PRICE && inbound == MARKET_ORDER_PRICE ==> cb.price == market)
  }

  /** Fills that start at one market price and end at another: the last one's, if there is any. */
  ghost predicate Quoted(env: OrderMap, market: nat, fills: seq<Callback>, market': nat)
    decreases |fills|
  {
    if fills == [] then market' == market
    else TradedAt(env, fills[0], market) && Quoted(env, fills[0].price, fills[1..], market')
  }

  lemma {:induction false} QuotedAppend(env: OrderMap, market: nat, a: seq<Callback>, mid: nat, b: seq<Callback>,
                                        market': nat)
    requires Quoted(env, market, a, mid) && Quoted(env, mid, b, market')
    ensures Quoted(env, market, a + b, market')
    decreases |a|
  {
    if a == [] {
      assert a + b == b;
    } else {
      assert (a + b)[0] == a[0] && (a + b)[1..] == a[1..] + b;
      QuotedAppend(env, a[0].price, a[1..], mid, b, market');
    }
  }

  /** One fill of such a list, and the market price after it. */
  lemma {:induction false} QuotedAt(env: OrderMap, market: nat, fills: seq<Callback>, market': nat, i: nat)
    requires Quoted(env, market, fills, market') && i < |fills|
    ensures fills[i].FillCb?
    ensures i == 0 ==> TradedAt(env, fills[i], market)
    ensures i > 0 ==> fills[i - 1].FillCb? && TradedAt(env, fills[i], fills[i - 1].price)
    ensures i == |fills| - 1 ==> market' == fills[i].price
    decreases i
  {
    if i > 0 {
      QuotedAt(env, fills[0].price, fills[1..], market', i - 1);
    }
  }

  /** The stop orders and the market price after some fills, one price after the other. */
  ghost predicate Trail(env: OrderMap, sb: StopBook, fills: seq<Callback>, sb': StopBook)
    decreases |fills|
  {
    if fills == [] then sb' == sb
    else TradedAt(env, fills[0], sb.marketPrice)
         && Trail(env, Matching.SetMarketPrice(sb, fills[0].price), fills[1..], sb')
  }

  lemma {:induction false} TrailAppend(env: OrderMap, sb: StopBook, a: seq<Callback>, mid: StopBook, b: seq<Callback>,
                                       sb': StopBook)
    requires Trail(env, sb, a, mid) && Trail(env, mid, b, sb')
    ensures Trail(env, sb, a + b, sb')
    decreases |a|
  {
    hide Matching.SetMarketPrice, TradedAt;
    if a == [] {
      assert a + b == b;
    } else {
      assert (a + b)[0] == a[0] && (a + b)[1..] == a[1..] + b;
      assert a[0].FillCb? by { TradeIsFill(env, a[0], sb.marketPrice); }
      TrailAppend(env, Matching.SetMarketPrice(sb, a[0].price), a[1..], mid, b, sb');
    }
  }

  lemma TradeIsFill(env: OrderMap, cb: Callback, market: nat)
    requires TradedAt(env, cb, market)
    ensures cb.FillCb?
  {
  }

  lemma TrailNone(env: OrderMap, sb: StopBook)
    ensures Trail(env, sb, [], sb)
  {
  }

  lemma TradeTrails(env: OrderMap, inbound: Tracker, current: Tracker, maxQty: nat, sb: StopBook)
    ensures var t := CreateTrade(env, inbound, current, maxQty, sb); Trail(env, sb, t.fills, t.stops)
  {
    hide Matching.SetMarketPrice;
    var t := CreateTrade(env, inbound, current, maxQty, sb);
    if t.qty > 0 {
      assert t.fills[1..] == [];
    }
  }

  lemma {:induction false} RegularTrails(env: OrderMap, inbound: Tracker, price: nat, done: seq<Entry>,
                                         rest: seq<Entry>, sb: StopBook)
    ensures var m := MatchRegular(env, inbound, price, done, rest, sb); Trail(env, sb, m.fills, m.stops)
    decreases |rest|
  {
    hide CreateTrade, Past, Trail;
    TrailNone(env, sb);
    if rest != [] && inbound.openQty != 0 && rest[0].key.Matches(price) {
      var e, tail := rest[0], rest[1..];
      if e.tracker.aon && inbound.openQty < e.tracker.openQty {
        RegularTrails(env, inbound, price, done + [e], tail, sb);
      } else {
        var t := CreateTrade(env, inbound, e.tracker, inbound.openQty, sb);
        TradeTrails(env, inbound, e.tracker, inbound.openQty, sb);
        RegularTrails(env, t.inbound, price, Past(done, e, t.current), tail, t.stops);
        var m := MatchRegular(env, t.inbound, price, Past(done, e, t.current), tail, t.stops);
        TrailAppend(env, sb, t.fills, t.stops, m.fills, m.stops);
      }
    }
  }

  lemma {:induction false} PlanTrails(env: OrderMap, inbound: Tracker, ids: seq<OrderId>, side: seq<Entry>, left: nat,
                                      sb: StopBook)
    ensures var d := ExecPlan(env, inbound, ids, side, left, sb); Trail(env, sb, d.fills, d.stops)
    decreases |ids|
  {
    hide CreateTrade, Trail, Settle, Share, IndexOf;
    TrailNone(env, sb);
    if ids != [] && left != 0 {
      var k := IndexOf(side, ids[0]);
      if k == |side| {
        PlanTrails(env, inbound, ids[1..], side, left, sb);
      } else {
        var q := Share(side[k].tracker, left);
        var t := CreateTrade(env, inbound, side[k].tracker, q, sb);
        TradeTrails(env, inbound, side[k].tracker, q, sb);
        PlanTrails(env, t.inbound, ids[1..], Settle(side, k, t.current), left - q, t.stops);
        var d := ExecPlan(env, t.inbound, ids[1..], Settle(side, k, t.current), left - q, t.stops);
        TrailAppend(env, sb, t.fills, t.stops, d.fills, d.stops);
      }
    }
  }

  lemma TryTrails(env: OrderMap, inbound: Tracker, ids: seq<OrderId>, maxQty: nat, minQty: nat, side: seq<Entry>,
                  sb: StopBook)
    ensures var d := TryDeferred(env, inbound, ids, maxQty, minQty, side, sb); Trail(env, sb, d.fills, d.stops)
  {
    hide ExecPlan, PlanQty, Trail;
    TrailNone(env, sb);
    PlanTrails(env, inbound, ids, side, maxQty, sb);
  }

  lemma {:induction false} AonTrails(env: OrderMap, inbound: Tracker, qty: nat, price: nat, done: seq<Entry>,
                                     rest: seq<Entry>, held: seq<OrderId>, heldQty: nat, sb: StopBook)
    ensures var m := MatchAon(env, inbound, qty, price, done, rest, held, heldQty, sb); Trail(env, sb, m.fills, m.stops)
    decreases |rest|
  {
    hide CreateTrade, Past, Trail, TryDeferred, Tried, TooLittle, AonPast;
    TrailNone(env, sb);
    if rest == [] || inbound.openQty == 0 || !rest[0].key.Matches(price) {
      return;
    }
    var e, tail := rest[0], rest[1..];
    var cur := e.tracker.openQty;
    if e.tracker.aon && qty < cur {
      AonTrails(env, inbound, qty, price, done + [e], tail, held, heldQty, sb);
    } else if cur + heldQty < qty {
      AonTrails(env, inbound, qty, price, done + [e], tail, held + [e.tracker.ptr], heldQty + cur, sb);
    } else {
      var d := Tried(env, inbound, qty, e.tracker, held, done, sb);
      var t := CreateTrade(env, d.inbound, e.tracker, d.inbound.openQty, d.stops);
      AonTryTrails(env, inbound, qty, e.tracker, held, done, sb);
      if TooLittle(e.tracker, qty, d.traded) {
        AonTrails(env, d.inbound, qty, price, d.side + [e], tail, held, heldQty, d.stops);
        var m := MatchAon(env, d.inbound, qty, price, d.side + [e], tail, held, heldQty, d.stops);
        TrailAppend(env, sb, d.fills, d.stops, m.fills, m.stops);
        AonGoesOn(env, inbound, qty, price, done, rest, held, heldQty, sb, d);
      } else {
        var past := AonPast(d, e, t);
        var qty' := qty - Min(qty, d.traded + t.qty);
        AonTrails(env, t.inbound, qty', price, past, tail, held, heldQty, t.stops);
        var m := MatchAon(env, t.inbound, qty', price, past, tail, held, heldQty, t.stops);
        TrailAppend(env, sb, d.fills + t.fills, t.stops, m.fills, m.stops);
        AonTrades(env, inbound, qty, price, done, rest, held, heldQty, sb, d, t);
      }
    }
  }

  /** What an inbound all-or-none order tries before it trades with the resting order `e`. */
  function Tried(env: OrderMap, inbound: Tracker, qty: nat, e: Tracker, held: seq<OrderId>, done: seq<Entry>,
                 sb: StopBook): Deferred
    requires !e.aon || e.openQty <= qty
  {
    TryDeferred(env, inbound, held, if e.aon then qty - e.openQty else qty, if qty > e.openQty then qty - e.openQty
                else 0, done, sb)
  }

  predicate TooLittle(e: Tracker, qty: nat, traded: nat) {
    if e.aon then traded != qty - e.openQty else e.openQty + traded < qty
  }

  function AonPast(d: Deferred, e: Entry, t: Trade): seq<Entry> {
    if e.tracker.aon && t.qty > 0 then d.side else Past(d.side, e, t.current)
  }

  lemma AonGoesOn(env: OrderMap, inbound: Tracker, qty: nat, price: nat, done: seq<Entry>, rest: seq<Entry>,
                  held: seq<OrderId>, heldQty: nat, sb: StopBook, d: Deferred)
    requires rest != [] && inbound.openQty != 0 && rest[0].key.Matches(price)
    requires (!rest[0].tracker.aon || rest[0].tracker.openQty <= qty) && qty <= rest[0].tracker.openQty + heldQty
    requires d == Tried(env, inbound, qty, rest[0].tracker, held, done, sb)
    requires TooLittle(rest[0].tracker, qty, d.traded)
    ensures MatchAon(env, inbound, qty, price, done, rest, held, heldQty, sb)
         == MatchAon(env, d.inbound, qty, price, d.side + [rest[0]], rest[1..], held, heldQty, d.stops)
              .After(d.fills, false)
  {
    hide CreateTrade, Past, TryDeferred;
  }

  lemma AonTrades(env: OrderMap, inbound: Tracker, qty: nat, price: nat, done: seq<Entry>, rest: seq<Entry>,
                  held: seq<OrderId>, heldQty: nat, sb: StopBook, d: Deferred, t: Trade)
    requires rest != [] && inbound.openQty != 0 && rest[0].key.Matches(price)
    requires (!rest[0].tracker.aon || rest[0].tracker.openQty <= qty) && qty <= rest[0].tracker.openQty + heldQty
    requires d == Tried(env, inbound, qty, rest[0].tracker, held, done, sb)
    requires t == CreateTrade(env, d.inbound, rest[0].tracker, d.inbound.openQty, d.stops)
    requires !TooLittle(rest[0].tracker, qty, d.traded)
    ensures MatchAon(env, inbound, qty, price, done, rest, held, heldQty, sb)
         == MatchAon(env, t.inbound, qty - Min(qty, d.traded + t.qty), price, AonPast(d, rest[0], t), rest[1..], held,
                     heldQty, t.stops)
              .After(d.fills + t.fills, if rest[0].tracker.aon then t.qty > 0 else d.traded + t.qty > 0)
  {
    hide CreateTrade, Past, TryDeferred;
  }

  /** The deferred trades and the one after them. */
  lemma AonTryTrails(env: OrderMap, inbound: Tracker, qty: nat, e: Tracker, held: seq<OrderId>, done: seq<Entry>,
                     sb: StopBook)
    requires !e.aon || e.openQty <= qty
    ensures var d := Tried(env, inbound, qty, e, held, done, sb);
            var t := CreateTrade(env, d.inbound, e, d.inbound.openQty, d.stops);
            Trail(env, sb, d.fills, d.stops) && Trail(env, sb, d.fills + t.fills, t.stops)
  {
    hide CreateTrade, Trail, TryDeferred;
    TryTrails(env, inbound, held, if e.aon then qty - e.openQty else qty, if qty > e.openQty then qty - e.openQty
              else 0, done, sb);
    var d := Tried(env, inbound, qty, e, held, done, sb);
    TradeTrails(env, d.inbound, e, d.inbound.openQty, d.stops);
    var t := CreateTrade(env, d.inbound, e, d.inbound.openQty, d.stops);
    TrailAppend(env, sb, d.fills, d.stops, t.fills, t.stops);
  }

  lemma MatchTrails(env: OrderMap, inbound: Tracker, price: nat, side: seq<Entry>, sb: StopBook)
    ensures var m := MatchOrder(env, inbound, price, side, sb); Trail(env, sb, m.fills, m.stops)
  {
    hide MatchAon, MatchRegular, Trail;
    AonTrails(env, inbound, inbound.openQty, price, [], side, [], 0, sb);
    RegularTrails(env, inbound, price, [], side, sb);
  }

  lemma {:induction false} RecheckTrails(env: OrderMap, ids: seq<OrderId>, aons: seq<Entry>, market: seq<Entry>,
                                         sb: StopBook)
    ensures var c := CheckDeferred(env, ids, aons, market, sb); Trail(env, sb, c.fills, c.stops)
    decreases |ids|
  {
    hide Matching.MatchOrder, Trail, Settle, IndexOf;
    TrailNone(env, sb);
    if ids != [] {
      var k := IndexOf(aons, ids[0]);
      if k == |aons| {
        RecheckTrails(env, ids[1..], aons, market, sb);
      } else {
        var m := MatchOrder(env, aons[k].tracker, aons[k].key.price, market, sb);
        MatchTrails(env, aons[k].tracker, aons[k].key.price, market, sb);
        RecheckTrails(env, ids[1..], Settle(aons, k, m.inbound), m.side, m.stops);
        var c := CheckDeferred(env, ids[1..], Settle(aons, k, m.inbound), m.side, m.stops);
        TrailAppend(env, sb, m.fills, m.stops, c.fills, c.stops);
      }
    }
  }

  /** A submission: prices, market price and stop orders follow its fills. */
  lemma AddTrails(env: OrderMap, b: Book, inbound: Tracker, price: nat)
    ensures var a := AddOrder(env, b, inbound, price); Trail(env, b.stops, a.fills, a.book.stops)
  {
    hide Matching.MatchOrder, Matching.CheckDeferred, Trail, Insert;
    var buy := IsBuy(env, inbound.ptr);
    var m := MatchOrder(env, inbound, price, b.Side(!buy), b.stops);
    MatchTrails(env, inbound, price, b.Side(!buy), b.stops);
    if m.inbound.openQty > 0 && !m.inbound.ioc {
      var own := Insert(b.Side(buy), Entry(ComparablePrice(buy, price), m.inbound));
      RecheckTrails(env, m.deferred, m.side, own, m.stops);
      var c := CheckDeferred(env, m.deferred, m.side, own, m.stops);
      TrailAppend(env, b.stops, m.fills, m.stops, c.fills, c.stops);
    }
  }

  lemma {:induction false} SubmitAllTrails(env: OrderMap, b: Book, waiting: seq<Tracker>)
    ensures var s := SubmitAll(env, b, waiting); Trail(env, b.stops, s.fills, s.book.stops)
    decreases |waiting|
  {
    hide AddOrder, Trail;
    TrailNone(env, b.stops);
    if waiting != [] {
      var a := AddOrder(env, b, waiting[0], PriceOf(env, waiting[0].ptr));
      AddTrails(env, b, waiting[0], PriceOf(env, waiting[0].ptr));
      SubmitAllTrails(env, a.book, waiting[1..]);
      var s := SubmitAll(env, a.book, waiting[1..]);
      TrailAppend(env, b.stops, a.fills, a.book.stops, s.fills, s.book.stops);
    }
  }

  // ---- What a trail means for prices and stops ----

  /** The first stop orders have been released, the others are still in line. */
  ghost predicate LastOf(s': seq<Entry>, s: seq<Entry>) {
    |s'| <= |s| && s' == s[|s| - |s'|..]
  }

  ghost predicate StillHeld(sb': StopBook, sb: StopBook) {
    LastOf(sb'.stopBids, sb.stopBids) && LastOf(sb'.stopAsks, sb.stopAsks)
  }

  lemma LastOfTransitive(a: seq<Entry>, b: seq<Entry>, c: seq<Entry>)
    requires LastOf(a, b) && LastOf(b, c)
    ensures LastOf(a, c)
  {
  }

  lemma PriceHolds(sb: StopBook, price: nat)
    ensures StillHeld(Matching.SetMarketPrice(sb, price), sb)
  {
    hide ReleaseCount, Trackers, LastOf;
    LastOfDrop(sb.stopBids, ReleaseCount(ComparablePrice(true, price), sb.stopBids));
    LastOfDrop(sb.stopAsks, ReleaseCount(ComparablePrice(false, price), sb.stopAsks));
    LastOfDrop(sb.stopBids, 0);
    LastOfDrop(sb.stopAsks, 0);
  }

  lemma LastOfDrop(s: seq<Entry>, n: nat)
    requires n <= |s|
    ensures LastOf(s[n..], s) && s[0..] == s
  {
  }

  lemma {:induction false} TrailQuotes(env: OrderMap, sb: StopBook, fills: seq<Callback>, sb': StopBook)
    requires Trail(env, sb, fills, sb')
    ensures Quoted(env, sb.marketPrice, fills, sb'.marketPrice) && StillHeld(sb', sb)
    decreases |fills|
  {
    hide Matching.SetMarketPrice;
    if fills != [] {
      var mid := Matching.SetMarketPrice(sb, fills[0].price);
      PriceHolds(sb, fills[0].price);
      TrailQuotes(env, mid, fills[1..], sb');
      LastOfTransitive(sb'.stopBids, mid.stopBids, sb.stopBids);
      LastOfTransitive(sb'.stopAsks, mid.stopAsks, sb.stopAsks);
    }
  }

  lemma AddQuotes(env: OrderMap, b: Book, inbound: Tracker, price: nat)
    ensures var a := AddOrder(env, b, inbound, price);
            Quoted(env, b.stops.marketPrice, a.fills, a.book.stops.marketPrice) && StillHeld(a.book.stops, b.stops)
  {
    hide AddOrder, Trail, Quoted, StillHeld;
    AddTrails(env, b, inbound, price);
    var a := AddOrder(env, b, inbound, price);
    TrailQuotes(env, b.stops, a.fills, a.book.stops);
  }

  /** The whole cascade: round by round. */
  lemma {:induction false} SubmitPendingQuotes(env: OrderMap, b: Book)
    ensures var r := SubmitPending(env, b);
            Quoted(env, b.stops.marketPrice, r.fills, r.book.stops.marketPrice) && StillHeld(r.book.stops, b.stops)
    decreases b.stops.Load()
  {
    hide SubmitAll, Trail, Quoted, LastOf;
    QuotedNone(env, b);
    if b.stops.pending != [] {
      SubmitAllTrails(env, Emptied(b), b.stops.pending);
      var s := SubmitAll(env, Emptied(b), b.stops.pending);
      TrailQuotes(env, Emptied(b).stops, s.fills, s.book.stops);
      SubmitPendingQuotes(env, s.book);
      var r := SubmitPending(env, s.book);
      QuotedAppend(env, b.stops.marketPrice, s.fills, s.book.stops.marketPrice, r.fills, r.book.stops.marketPrice);
      LastOfTransitive(r.book.stops.stopBids, s.book.stops.stopBids, b.stops.stopBids);
      LastOfTransitive(r.book.stops.stopAsks, s.book.stops.stopAsks, b.stops.stopAsks);
    }
  }

  lemma QuotedNone(env: OrderMap, b: Book)
    ensures Quoted(env, b.stops.marketPrice, [], b.stops.marketPrice) && StillHeld(b.stops, b.stops)
  {
  }

  // ---- Waiting orders are submitted in turn ----

  lemma Regroup<T>(a: seq<T>, b: seq<T>, c: seq<T>)
    ensures a + (b + c) == a + b + c
  {
  }

  /** First the one half, then the other. */
  lemma {:induction false} SubmittedInTurn(env: OrderMap, b: Book, first: seq<Tracker>, then': seq<Tracker>)
    ensures var s := SubmitAll(env, b, first);
            var s' := SubmitAll(env, s.book, then');
            SubmitAll(env, b, first + then') == Submitted(s'.book, s.fills + s'.fills, s.dropped + s'.dropped)
    decreases |first|
  {
    hide AddOrder;
    if first == [] {
      assert first + then' == then';
    } else {
      assert (first + then')[0] == first[0] && (first + then')[1..] == first[1..] + then';
      var a := AddOrder(env, b, first[0], PriceOf(env, first[0].ptr));
      SubmittedInTurn(env, a.book, first[1..], then');
      var r := SubmitAll(env, a.book, first[1..]);
      var s' := SubmitAll(env, r.book, then');
      Regroup(a.fills, r.fills, s'.fills);
      Regroup(a.dropped, r.dropped, s'.dropped);
    }
  }
}
