/** Prices over whole requests: the price of every fill, the market price afterwards, what the caller
    is told about matches. */
module QuoteResults {
  import opened Prices
  import opened Orders
  import opened Books
  import opened Matching
  import opened Accounting
  import opened BookRuns
  import opened Cascade
  import opened DepthSpec
  import opened Requests
  import opened System
  import opened RequestRuns
  import opened Results
  import opened Quotes

  /** The fills among some callbacks. */
  function FillsIn(cbs: seq<Callback>): seq<Callback> {
    if cbs == [] then [] else (if cbs[0].FillCb? then [cbs[0]] else []) + FillsIn(cbs[1..])
  }

  lemma {:induction false} FillsInAppend(a: seq<Callback>, b: seq<Callback>)
    ensures FillsIn(a + b) == FillsIn(a) + FillsIn(b)
  {
    if a == [] {
      assert a + b == b;
    } else {
      assert (a + b)[0] == a[0] && (a + b)[1..] == a[1..] + b;
      FillsInAppend(a[1..], b);
    }
  }

  lemma {:induction false} QuotedAreFills(env: OrderMap, market: nat, fills: seq<Callback>, market': nat)
    requires Quoted(env, market, fills, market')
    ensures FillsIn(fills) == fills
    decreases |fills|
  {
    if fills != [] {
      QuotedAreFills(env, fills[0].price, fills[1..], market');
      assert [fills[0]] + fills[1..] == fills;
    }
  }

  lemma {:induction false} OthersAreNone(cbs: seq<Callback>)
    requires NoFills(cbs)
    ensures FillsIn(cbs) == []
  {
    if cbs != [] {
      OthersAreNone(cbs[1..]);
    }
  }

  /** The fills of a request: those of its own order, and those of the cascade. */
  lemma FillsOfParts(head: seq<Callback>, f1: seq<Callback>, mid: seq<Callback>, f2: seq<Callback>)
    requires NoFills(head) && NoFills(mid) && FillsIn(f1) == f1 && FillsIn(f2) == f2
    ensures FillsIn(head + f1 + mid + f2 + [BookUpdateCb]) == f1 + f2
  {
    FillsInAppend(head + f1 + mid + f2, [BookUpdateCb]);
    FillsInAppend(head + f1 + mid, f2);
    FillsInAppend(head + f1, mid);
    FillsInAppend(head, f1);
    OthersAreNone(head);
    OthersAreNone(mid);
    OthersAreNone([BookUpdateCb]);
  }

  lemma CascadeQuoted(env: OrderMap, b: Book, head: seq<Callback>)
    requires NoFills(head)
    ensures var r := SubmitPending(env, b);
            Quoted(env, b.stops.marketPrice, FillsIn(head + r.fills + [BookUpdateCb]), r.book.stops.marketPrice)
  {
    hide SubmitPending, Quoted, StillHeld;
    var r := SubmitPending(env, b);
    SubmitPendingQuotes(env, b);
    QuotedAreFills(env, b.stops.marketPrice, r.fills, r.book.stops.marketPrice);
    assert FillsIn([]) == [];
    FillsOfParts(head, [], [], r.fills);
    assert head + [] + [] + r.fills + [BookUpdateCb] == head + r.fills + [BookUpdateCb];
    assert [] + r.fills == r.fills;
  }

  lemma SubmissionQuoted(env: OrderMap, b: Book, t: Tracker, price: nat, head: seq<Callback>, mid: seq<Callback>)
    requires NoFills(head) && NoFills(mid)
    ensures var a := AddOrder(env, b, t, price);
            var r := SubmitPending(env, a.book);
            Quoted(env, b.stops.marketPrice, FillsIn(head + a.fills + mid + r.fills + [BookUpdateCb]),
                   r.book.stops.marketPrice)
  {
    hide AddOrder, SubmitPending, Quoted, StillHeld;
    var a := AddOrder(env, b, t, price);
    var r := SubmitPending(env, a.book);
    AddQuotes(env, b, t, price);
    SubmitPendingQuotes(env, a.book);
    QuotedAreFills(env, b.stops.marketPrice, a.fills, a.book.stops.marketPrice);
    QuotedAreFills(env, a.book.stops.marketPrice, r.fills, r.book.stops.marketPrice);
    FillsOfParts(head, a.fills, mid, r.fills);
    QuotedAppend(env, b.stops.marketPrice, a.fills, a.book.stops.marketPrice, r.fills, r.book.stops.marketPrice);
  }

  lemma ReplacedQuoted(env: OrderMap, b: Book, t: Tracker, d: int, price: nat)
    requires t.openQty + d >= 0
    ensures var out := ReplaceTaken(env, b, t, d, price);
            Quoted(env, b.stops.marketPrice, FillsIn(out.cbs), out.book.stops.marketPrice)
  {
    hide AddOrder, SubmitPending, Quoted;
    var head := ReplaceCb(t.ptr, t.openQty, d, price);
    CascadeQuoted(env, b, [head, CancelCb(t.ptr, 0)]);
    var t' := t.(openQty := if t.openQty + d > 0 then t.openQty + d else 0);
    SubmissionQuoted(env, b, t', price, [head], []);
    var a := AddOrder(env, b, t', price);
    var r := SubmitPending(env, a.book);
    assert [head] + a.fills + [] + r.fills + [BookUpdateCb] == [head] + a.fills + r.fills + [BookUpdateCb];
  }

  lemma AddedQuoted(env: OrderMap, b: Book, id: OrderId, aon: bool, ioc: bool)
    requires id in env && env[id].qty > 0
    ensures var out := Add(env, b, id, aon, ioc);
            Quoted(env, b.stops.marketPrice, FillsIn(out.cbs), out.book.stops.marketPrice)
  {
    hide AddOrder, SubmitPending, Quoted, Held, FillsIn, Insert;
    var t := Tracker(id, env[id].qty, aon, ioc);
    if Held(env, id, b.stops.marketPrice) {
      CascadeQuoted(env, HoldStop(env, b, t), [AcceptCb(id, 0)]);
    } else {
      var a := AddOrder(env, b, t, env[id].price);
      SubmissionQuoted(env, b, t, env[id].price,
                       [AcceptCb(a.inbound.ptr, env[id].qty - Min(env[id].qty, a.inbound.openQty))],
                       CancelRest(a.inbound));
    }
  }

  /** Every fill of a request, in turn: made at the price of the matched order as it was before the
      request; when that is a market order at the inbound one's; when both are, at the market price of
      the moment. The market price afterwards is that of the last fill, or what it was. */
  lemma RequestQuoted(s: Sys, r: Request)
    requires !r.MarketPriceReq?
    ensures Quoted(OrdersAt(s, r), s.book.stops.marketPrice, FillsIn(Emitted(s, r)),
                   Handle(s, r).book.stops.marketPrice)
  {
    hide Quoted, ReplaceTaken, FindOnMarket, ApplyAll;
    match r
    case AddReq(id, order, aon, ioc) =>
      if order.qty > 0 {
        AddedQuoted(s.orders[id := order], s.book, id, aon, ioc);
      } else {
        NothingQuoted(OrdersAt(s, r), s.book, [RejectCb(id)]);
      }
    case CancelReq(id) =>
      var cbs := Requests.Cancel(s.orders, s.book, id).cbs;
      NothingQuoted(OrdersAt(s, r), s.book, cbs);
    case ReplaceReq(id, delta, newPrice) =>
      var buy := IsBuy(s.orders, id);
      var k := FindOnMarket(s.orders, s.book, id);
      if k < |s.book.Side(buy)| {
        var t := s.book.Side(buy)[k].tracker;
        ReplacedQuoted(s.orders, Without(s.book, buy, k), t, ClipDelta(delta, t.openQty),
                       if newPrice == 0 then PriceOf(s.orders, id) else newPrice);
      } else {
        NothingQuoted(OrdersAt(s, r), s.book, [ReplaceRejectCb(id)]);
      }
  }

  lemma NothingQuoted(env: OrderMap, b: Book, cbs: seq<Callback>)
    requires NoFills(cbs)
    ensures Quoted(env, b.stops.marketPrice, FillsIn(cbs), b.stops.marketPrice)
  {
    OthersAreNone(cbs);
  }

  /** The same, fill by fill. */
  lemma FillIsQuoted(s: Sys, r: Request, i: nat)
    requires !r.MarketPriceReq? && i < |FillsIn(Emitted(s, r))|
    ensures var fills, env := FillsIn(Emitted(s, r)), OrdersAt(s, r);
            && (i == 0 ==> TradedAt(env, fills[i], s.book.stops.marketPrice))
            && (i > 0 ==> fills[i - 1].FillCb? && TradedAt(env, fills[i], fills[i - 1].price))
            && (i == |fills| - 1 ==> fills[i].FillCb? && Handle(s, r).book.stops.marketPrice == fills[i].price)
  {
    hide Handle, Emitted, TradedAt;
    RequestQuoted(s, r);
    QuotedAt(OrdersAt(s, r), s.book.stops.marketPrice, FillsIn(Emitted(s, r)), Handle(s, r).book.stops.marketPrice, i);
  }
}
