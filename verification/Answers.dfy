/** What a request answers: which callback comes first, and what the application's order is
    afterwards. */
module Answers {
  import opened Prices
  import opened Orders
  import opened Books
  import opened Matching
  import opened Accounting
  import opened BookRuns
  import opened Cascade
  import opened DepthSpec
  import opened Requests
  import opened OrdersAfter
  import opened System
  import opened RequestRuns
  import opened RequestInvariants
  import opened Results
  import opened EngineSteps
  import opened Quotes
  import opened QuoteResults

  // ---- Callbacks that leave the terms of an order alone ----

  /** Fills, cancellations and updates: no size or price is changed by them. */
  ghost predicate NoChanges(cbs: seq<Callback>) {
    forall i :: 0 <= i < |cbs| ==> !cbs[i].ReplaceCb?
  }

  lemma {:induction false} CallbacksKeepTerms(orders: OrderMap, cbs: seq<Callback>, id: OrderId)
    requires NoChanges(cbs) && id in orders
    ensures var orders' := ApplyAll(orders, cbs);
            id in orders' && orders'[id].qty == orders[id].qty && orders'[id].price == orders[id].price
    decreases |cbs|
  {
    if cbs != [] {
      OneKeepsTerms(orders, cbs[0], id);
      CallbacksKeepTerms(ApplyCallback(orders, cbs[0]), cbs[1..], id);
    }
  }

  lemma OneKeepsTerms(orders: OrderMap, cb: Callback, id: OrderId)
    requires !cb.ReplaceCb? && id in orders
    ensures var orders' := ApplyCallback(orders, cb);
            id in orders' && orders'[id].qty == orders[id].qty && orders'[id].price == orders[id].price
  {
  }

  lemma QuotedAllFills(env: OrderMap, market: nat, fills: seq<Callback>, market': nat)
    requires Quoted(env, market, fills, market')
    ensures AllFills(fills)
  {
    forall i | 0 <= i < |fills|
      ensures fills[i].FillCb?
    {
      QuotedAt(env, market, fills, market', i);
    }
  }

  lemma CascadeFills(env: OrderMap, b: Book)
    ensures AllFills(SubmitPending(env, b).fills)
  {
    hide SubmitPending, Quoted;
    SubmitPendingQuotes(env, b);
    var r := SubmitPending(env, b);
    QuotedAllFills(env, b.stops.marketPrice, r.fills, r.book.stops.marketPrice);
  }

  lemma AddedFills(env: OrderMap, b: Book, t: Tracker, price: nat)
    ensures AllFills(AddOrder(env, b, t, price).fills)
  {
    hide AddOrder, Quoted;
    AddQuotes(env, b, t, price);
    var a := AddOrder(env, b, t, price);
    QuotedAllFills(env, b.stops.marketPrice, a.fills, a.book.stops.marketPrice);
  }

  // ---- Replacing ----

  /** The callbacks of a replacement that finds its order: the replace callback, and then fills, with
      a cancellation first when nothing is left open. */
  lemma ReplaceCallbacks(orders: OrderMap, rest: Book, t: Tracker, d: int, price: nat)
    requires t.openQty + d >= 0
    ensures var cbs := ReplaceTaken(orders, rest, t, d, price).cbs;
            && |cbs| > 1 && cbs[0] == ReplaceCb(t.ptr, t.openQty, d, price)
            && NoChanges(cbs[1..]) && cbs[|cbs| - 1] == BookUpdateCb
            && (t.openQty + d == 0 ==> cbs[1] == CancelCb(t.ptr, 0))
            && (t.openQty + d > 0 ==> forall i :: 0 <= i < |cbs| ==> !cbs[i].CancelCb?)
  {
    hide Matching.AddOrder, Matching.SubmitPending;
    if t.openQty + d == 0 {
      CascadeFills(orders, rest);
    } else {
      var a := AddOrder(orders, rest, t.(openQty := t.openQty + d), price);
      AddedFills(orders, rest, t.(openQty := t.openQty + d), price);
      CascadeFills(orders, a.book);
    }
  }

  /** The size of an order after a change: never below what it has been filled for. */
  function NewSize(o: Order, delta: int): int {
    if o.qty + delta > o.filled then o.qty + delta else o.filled
  }

  lemma ClipIsNewSize(o: Order, open: nat, delta: int)
    requires o.OpenQty() == open > 0
    ensures o.qty + ClipDelta(delta, open) == NewSize(o, delta) && open + ClipDelta(delta, open) >= 0
    ensures open + ClipDelta(delta, open) == 0 <==> o.qty + delta <= o.filled
  {
  }

  lemma ReplaceFirst(orders: OrderMap, id: OrderId, open: nat, delta: int, price: nat)
    requires id in orders && orders[id].state == Accepted && orders[id].OpenQty() == open > 0
    ensures NewSize(orders[id], delta) >= 0
    ensures ApplyCallback(orders, ReplaceCb(id, open, ClipDelta(delta, open), price))
         == orders[id := orders[id].(qty := NewSize(orders[id], delta), price := price)]
  {
    ClipIsNewSize(orders[id], open, delta);
  }

  /** A replacement of a resting order: its size changes by what was asked, but not below what is
      filled; its price becomes the new one, if one is given; and it is closed exactly when it asks
      for no more than what is filled. */
  lemma ReplaceAnswers(s: Sys, buy: bool, k: nat, delta: int, newPrice: nat)
    requires Inv(s) && k < |s.book.Side(buy)|
    ensures var id := s.book.Side(buy)[k].tracker.ptr;
            var r := ReplaceReq(id, delta, newPrice);
            && id in s.orders && id in Handle(s, r).orders
            && var o, o', cbs := s.orders[id], Handle(s, r).orders[id], Emitted(s, r);
            && o'.qty == NewSize(o, delta)
            && o'.price == (if newPrice == 0 then o.price else newPrice)
            && |cbs| > 1 && cbs[0] == ReplaceCb(id, o.OpenQty(), o'.qty - o.qty, o'.price)
            && cbs[|cbs| - 1] == BookUpdateCb
            && (o.qty + delta <= o.filled <==> exists i :: 0 <= i < |cbs| && cbs[i].CancelCb?)
            && (o.qty + delta <= o.filled ==> cbs[1] == CancelCb(id, 0))
  {
    hide Inv, ReplaceTaken, FindOnMarket, ClipDelta, NewSize, NoChanges, ApplyCallback, Without;
    var t := s.book.Side(buy)[k].tracker;
    var id := t.ptr;
    RestingMirrorsOrder(s, buy, k);
    FindsExactlyResting(s, id, k);
    var o := s.orders[id];
    var d, price := ClipDelta(delta, t.openQty), if newPrice == 0 then PriceOf(s.orders, id) else newPrice;
    ClipIsNewSize(o, t.openQty, delta);
    var cbs := ReplaceTaken(s.orders, Without(s.book, buy, k), t, d, price).cbs;
    ReplaceFirst(s.orders, id, t.openQty, delta, price);
    ReplaceCallbacks(s.orders, Without(s.book, buy, k), t, d, price);
    assert Emitted(s, ReplaceReq(id, delta, newPrice)) == cbs;
    CallbacksKeepTerms(ApplyCallback(s.orders, cbs[0]), cbs[1..], id);
    if o.qty + delta <= o.filled {
      assert cbs[1].CancelCb?;
    }
  }

  /** A replacement of an order that does not rest is rejected, and changes nothing. */
  lemma ReplaceRejected(s: Sys, id: OrderId, delta: int, newPrice: nat)
    requires Inv(s) && forall j :: 0 <= j < |s.book.Side(IsBuy(s.orders, id))| ==>
             s.book.Side(IsBuy(s.orders, id))[j].tracker.ptr != id
    ensures var r := ReplaceReq(id, delta, newPrice);
            && Emitted(s, r) == [ReplaceRejectCb(id)]
            && Handle(s, r) == s.(history := s.history + [ReplaceRejectCb(id)])
  {
    hide Inv, ReplaceTaken, FindOnMarket;
    var k := FindOnMarket(s.orders, s.book, id);
    FindsExactlyResting(s, id, k);
    RejectionChangesNothing(s, ReplaceRejectCb(id));
  }

  lemma RejectionChangesNothing(s: Sys, cb: Callback)
    requires cb.CancelRejectCb? || cb.ReplaceRejectCb?
    ensures ApplyAll(s.orders, [cb]) == s.orders && s.retired + ([] + []) == s.retired
  {
    assert [cb][1..] == [];
  }

  // ---- Cancelling ----

  /** A cancellation of a resting order reports what was open, and takes the order out of the book. */
  lemma CancelAnswers(s: Sys, buy: bool, k: nat)
    requires Inv(s) && k < |s.book.Side(buy)|
    ensures var id := s.book.Side(buy)[k].tracker.ptr;
            var s' := Handle(s, CancelReq(id));
            && id in s.orders
            && Emitted(s, CancelReq(id)) == [CancelCb(id, s.orders[id].OpenQty()), BookUpdateCb]
            && s'.orders == s.orders[id := s.orders[id].(state := Cancelled)]
            && s'.book.Side(buy) == s.book.Side(buy)[..k] + s.book.Side(buy)[k + 1..]
            && s'.book.Side(!buy) == s.book.Side(!buy) && s'.book.stops == s.book.stops
  {
    hide Inv, FindOnMarket;
    var id := s.book.Side(buy)[k].tracker.ptr;
    RestingMirrorsOrder(s, buy, k);
    FindsExactlyResting(s, id, k);
    var cb := CancelCb(id, s.orders[id].OpenQty());
    ThenBookUpdate(s.orders, cb);
  }

  lemma CancelRejected(s: Sys, id: OrderId)
    requires Inv(s) && forall j :: 0 <= j < |s.book.Side(IsBuy(s.orders, id))| ==>
             s.book.Side(IsBuy(s.orders, id))[j].tracker.ptr != id
    ensures Emitted(s, CancelReq(id)) == [CancelRejectCb(id)]
    ensures Handle(s, CancelReq(id)) == s.(history := s.history + [CancelRejectCb(id)])
  {
    hide Inv, FindOnMarket;
    var k := FindOnMarket(s.orders, s.book, id);
    FindsExactlyResting(s, id, k);
    RejectionChangesNothing(s, CancelRejectCb(id));
  }

  // ---- Adding ----

  /** An order without a size is rejected, and the book does not change. */
  lemma EmptyOrderRejected(s: Sys, id: OrderId, order: Order, aon: bool, ioc: bool)
    requires order.qty == 0
    ensures var r := AddReq(id, order, aon, ioc);
            && Emitted(s, r) == [RejectCb(id)]
            && Handle(s, r) == s.(orders := s.orders[id := order], history := s.history + [RejectCb(id)])
  {
    RejectedShape(s, id, order, aon, ioc);
    assert [RejectCb(id)][1..] == [];
  }

  /** Any other order is accepted first, and the book update comes last. */
  lemma AddAnswers(s: Sys, id: OrderId, order: Order, t: Tracker)
    requires Fresh(s, id, order, t)
    ensures var cbs := Emitted(s, AddReq(id, order, t.aon, t.ioc));
            && |cbs| > 1 && cbs[0].AcceptCb? && cbs[0].order == id && cbs[|cbs| - 1] == BookUpdateCb
  {
    hide Inv, Seen, Matching.AddOrder, Matching.SubmitPending, Held, HoldStop;
    var orders := s.orders[id := order];
    NewOrderComing(s, id, order, t);
    AddedInbound(Seen(orders, s.book, [t]), s.book, t);
    FreshView(s, id, order, t);
    var a := AddOrder(orders, s.book, t, order.price);
    AcceptFirst(order.qty, a, SubmitPending(orders, a.book));
    HeldAccepted(id, SubmitPending(orders, HoldStop(orders, s.book, t)));
  }

  lemma AcceptFirst(qty: nat, a: Added, r: Submitted)
    ensures var cbs := AddOutcome(qty, a, r).cbs;
            |cbs| > 1 && cbs[0].AcceptCb? && cbs[0].order == a.inbound.ptr && cbs[|cbs| - 1] == BookUpdateCb
  {
  }

  lemma HeldAccepted(id: OrderId, r: Submitted)
    ensures var cbs := Finish(r, [AcceptCb(id, 0)], false, []).cbs;
            |cbs| > 1 && cbs[0] == AcceptCb(id, 0) && cbs[|cbs| - 1] == BookUpdateCb
  {
  }

  /** An immediate-or-cancel order does not go on after its first match. */
  lemma IocStopsAfterMatch(env: OrderMap, b: Book, t: Tracker, price: nat)
    ensures var m := MatchOrder(env, t, price, b.Side(!IsBuy(env, t.ptr)), b.stops);
            m.inbound.ioc ==> AddOrder(env, b, t, price).fills == m.fills
  {
    hide Matching.MatchOrder, Matching.CheckDeferred, Insert;
  }

  /** What an immediate-or-cancel order leaves after its first match is cancelled at once; no other
      added order is cancelled by its own request. */
  lemma RemainderCancelled(s: Sys, id: OrderId, order: Order, t: Tracker)
    requires Fresh(s, id, order, t) && !Held(s.orders[id := order], id, s.book.stops.marketPrice)
    ensures var orders := s.orders[id := order];
            var m := MatchOrder(orders, t, order.price, s.book.Side(!order.isBuy), s.book.stops);
            var q, cbs := FillsOf(m.fills, id), Emitted(s, AddReq(id, order, t.aon, t.ioc));
            && (t.ioc && q < order.qty ==> [AcceptCb(id, q)] + m.fills + [CancelCb(id, 0)] <= cbs)
            && ((exists i :: 0 <= i < |cbs| && cbs[i].CancelCb?) <==> t.ioc && q < order.qty)
  {
    hide Inv, Fresh, Seen, Coming, Held, AllFills, AddOutcome, Matching.MatchOrder, Matching.SubmitPending,
         Matching.AddOrder, FillsOf;
    var orders := s.orders[id := order];
    FreshView(s, id, order, t);
    NewOrderComing(s, id, order, t);
    FirstMatchLeaves(Seen(orders, s.book, [t]), s.book, t);
    var a := AddOrder(orders, s.book, t, order.price);
    CascadeFills(orders, a.book);
    RemainderCallbacks(order.qty, a, SubmitPending(orders, a.book), id);
  }

  lemma FirstMatchLeaves(v: View, b: Book, t: Tracker)
    requires Coming(v, b, t)
    ensures var price := PriceOf(v.denv, t.ptr);
            var a := AddOrder(v.env, b, t, price);
            var m := MatchOrder(v.env, t, price, b.Side(!IsBuy(v.env, t.ptr)), b.stops);
            && a.inbound == t.(openQty := a.inbound.openQty) && AllFills(a.fills)
            && a.inbound.openQty + FillsOf(m.fills, t.ptr) == t.openQty
            && (t.ioc ==> a.fills == m.fills)
  {
    hide Submittable, Matching.MatchOrder, Matching.AddOrder, FillsOf;
    IsSubmittable(v, b, t);
    FirstMatchFills(v, b, t);
    AddedInbound(v, b, t);
    SameSide(v, b, t);
    AddedStartsWithMatch(v.env, b, t, PriceOf(v.denv, t.ptr));
    IocStopsAfterMatch(v.env, b, t, PriceOf(v.denv, t.ptr));
    AddedFills(v.env, b, t, PriceOf(v.denv, t.ptr));
  }

  lemma SameSide(v: View, b: Book, t: Tracker)
    requires Submittable(v, b, t)
    ensures IsBuy(v.env, t.ptr) == IsBuy(v.denv, t.ptr)
  {
  }

  lemma IsSubmittable(v: View, b: Book, t: Tracker)
    requires Coming(v, b, t)
    ensures Submittable(v, b, t)
  {
  }

  lemma RemainderCallbacks(qty: nat, a: Added, r: Submitted, id: OrderId)
    requires AllFills(a.fills) && AllFills(r.fills) && a.inbound.ptr == id && a.inbound.openQty <= qty
    ensures var cbs := AddOutcome(qty, a, r).cbs;
            && (a.inbound.ioc && a.inbound.openQty > 0 ==>
                [AcceptCb(id, qty - a.inbound.openQty)] + a.fills + [CancelCb(id, 0)] <= cbs)
            && ((exists i :: 0 <= i < |cbs| && cbs[i].CancelCb?) <==> a.inbound.ioc && a.inbound.openQty > 0)
  {
    var cbs := AddOutcome(qty, a, r).cbs;
    var head := AcceptCb(id, qty - a.inbound.openQty);
    if a.inbound.ioc && a.inbound.openQty > 0 {
      assert cbs == [head] + a.fills + [CancelCb(id, 0)] + r.fills + [BookUpdateCb];
      assert cbs[|a.fills| + 1] == CancelCb(id, 0);
    } else {
      assert cbs == [head] + a.fills + [] + r.fills + [BookUpdateCb];
    }
  }

  // ---- What the caller is told about matches ----

  lemma {:induction false} RecheckMatched(v: View, ids: seq<OrderId>, aons: seq<Entry>, market: seq<Entry>,
                                          buySide: bool, sb: StopBook)
    requires PairOk(v, aons, market, buySide, sb)
    ensures var c := CheckDeferred(v.env, ids, aons, market, sb); c.matched <==> c.fills != []
    decreases |ids|
  {
    hide Matching.MatchOrder, SideOk, StopsOk, Settle, Opposed;
    if ids != [] {
      var k := IndexOf(aons, ids[0]);
      if k == |aons| {
        RecheckMatched(v, ids[1..], aons, market, buySide, sb);
      } else {
        var m := MatchOrder(v.env, aons[k].tracker, aons[k].key.price, market, sb);
        RecheckOneMatched(v, aons, k, market, buySide, sb);
        RecheckStep(v, aons, k, market, buySide, sb, 0, LiveOf(0));
        RecheckMatched(v, ids[1..], Settle(aons, k, m.inbound), m.side, buySide, m.stops);
      }
    }
  }

  lemma RecheckOneMatched(v: View, aons: seq<Entry>, k: nat, market: seq<Entry>, buySide: bool, sb: StopBook)
    requires PairOk(v, aons, market, buySide, sb) && k < |aons|
    ensures var m := MatchOrder(v.env, aons[k].tracker, aons[k].key.price, market, sb); m.matched <==> m.fills != []
  {
    hide Matching.MatchOrder, Opposed;
    assert Resting(v, aons[k], buySide);
    SideIsOpposed(v, aons[k].tracker, market, !buySide);
    MatchOrderRuns(v, aons[k].tracker, aons[k].key.price, market, sb);
  }

  /** A submission reports a match exactly when it trades. */
  lemma AddedMatched(v: View, b: Book, t: Tracker)
    requires Submittable(v, b, t)
    ensures var a := AddOrder(v.env, b, t, PriceOf(v.denv, t.ptr)); a.matched <==> a.fills != []
  {
    hide Matching.MatchOrder, Matching.CheckDeferred, Insert, SideOk, StopsOk, Opposed;
    var buy, price := IsBuy(v.denv, t.ptr), PriceOf(v.denv, t.ptr);
    var m := MatchOrder(v.env, t, price, b.Side(!buy), b.stops);
    SideIsOpposed(v, t, b.Side(!buy), !buy);
    SubmittedOn(v, b);
    MatchOrderRuns(v, t, price, b.Side(!buy), b.stops);
    FirstMatchKeeps(v, t, price, b.Side(!buy), !buy, b.stops, 0, LiveOf(0));
    if m.inbound.openQty > 0 && !m.inbound.ioc {
      var e := Entry(ComparablePrice(buy, price), m.inbound);
      InsertedSide(v, b, t, e);
      RecheckMatched(v, m.deferred, m.side, Insert(b.Side(buy), e), !buy, m.stops);
    }
  }

  lemma SubmittedOn(v: View, b: Book)
    requires BookOk(v, b)
    ensures v.priced ==> b.stops.marketPrice != MARKET_ORDER_PRICE
  {
  }

  lemma InsertedSide(v: View, b: Book, t: Tracker, e: Entry)
    requires Submittable(v, b, t)
    requires e.key == ComparablePrice(IsBuy(v.denv, t.ptr), PriceOf(v.denv, t.ptr)) && !e.tracker.ioc
    requires e.tracker == t.(openQty := e.tracker.openQty) && e.tracker.openQty > 0
    ensures SideOk(v, Insert(b.Side(IsBuy(v.denv, t.ptr)), e), IsBuy(v.denv, t.ptr))
  {
    InsertKeepsSideOk(v, b.Side(IsBuy(v.denv, t.ptr)), e, IsBuy(v.denv, t.ptr));
  }

  /** What `add` and `replace` return. */
  function Told(s: Sys, r: Request): bool {
    match r
    case AddReq(id, order, aon, ioc) => Add(s.orders[id := order], s.book, id, aon, ioc).matched
    case ReplaceReq(id, delta, newPrice) => Replace(s.orders, s.book, id, delta, newPrice).matched
    case _ => false
  }

  /** Without fills the price stays, and releases nothing. */
  lemma NoFillNoRelease(env: OrderMap, b: Book, t: Tracker, price: nat)
    requires b.stops.pending == []
    ensures var a := AddOrder(env, b, t, price);
            a.fills == [] ==> SubmitPending(env, a.book) == Submitted(a.book, [], [])
  {
    hide AddOrder;
    AddTrails(env, b, t, price);
  }

  lemma SubmissionTold(v: View, b: Book, t: Tracker, head: seq<Callback>, mid: seq<Callback>)
    requires Submittable(v, b, t) && b.stops.pending == [] && NoFills(head) && NoFills(mid)
    ensures var a := AddOrder(v.env, b, t, PriceOf(v.denv, t.ptr));
            var r := SubmitPending(v.env, a.book);
            a.matched <==> FillsIn(head + a.fills + mid + r.fills + [BookUpdateCb]) != []
  {
    hide AddOrder, SubmitPending, Submittable, Quoted, StillHeld, FillsIn;
    var price := PriceOf(v.denv, t.ptr);
    var a := AddOrder(v.env, b, t, price);
    var r := SubmitPending(v.env, a.book);
    AddedMatched(v, b, t);
    NoFillNoRelease(v.env, b, t, price);
    AddQuotes(v.env, b, t, price);
    SubmitPendingQuotes(v.env, a.book);
    QuotedAreFills(v.env, b.stops.marketPrice, a.fills, a.book.stops.marketPrice);
    QuotedAreFills(v.env, a.book.stops.marketPrice, r.fills, r.book.stops.marketPrice);
    FillsOfParts(head, a.fills, mid, r.fills);
  }

  lemma OutcomeTold(v: View, b: Book, t: Tracker, qty: nat)
    requires Submittable(v, b, t) && b.stops.pending == []
    ensures var a := AddOrder(v.env, b, t, PriceOf(v.denv, t.ptr));
            var out := AddOutcome(qty, a, SubmitPending(v.env, a.book));
            out.matched <==> FillsIn(out.cbs) != []
  {
    hide Submittable, Matching.SubmitPending, Matching.AddOrder, FillsIn, CancelRest;
    var a := AddOrder(v.env, b, t, PriceOf(v.denv, t.ptr));
    RestIsNoFill(a.inbound);
    SubmissionTold(v, b, t, [AcceptCb(a.inbound.ptr, qty - Min(qty, a.inbound.openQty))], CancelRest(a.inbound));
  }

  lemma AddTold(s: Sys, id: OrderId, order: Order, t: Tracker)
    requires Fresh(s, id, order, t) && s.book.stops.pending == []
    ensures var r := AddReq(id, order, t.aon, t.ioc); Told(s, r) <==> FillsIn(Emitted(s, r)) != []
  {
    hide Inv, Fresh, Seen, Submittable, Coming, Matching.SubmitPending, Matching.AddOrder, FillsIn, HoldStop, Held,
         AddOutcome;
    var orders := s.orders[id := order];
    var v := Seen(orders, s.book, [t]);
    FreshView(s, id, order, t);
    if Held(orders, id, s.book.stops.marketPrice) {
      HoldKeepsPending(orders, s.book, t);
      HeldTold(id, orders, HoldStop(orders, s.book, t));
    } else {
      NewOrderComing(s, id, order, t);
      IsSubmittable(v, s.book, t);
      OutcomeTold(v, s.book, t, order.qty);
    }
  }

  lemma RestIsNoFill(t: Tracker)
    ensures NoFills(CancelRest(t))
  {
  }

  lemma HoldKeepsPending(orders: OrderMap, b: Book, t: Tracker)
    requires t.ptr in orders
    ensures HoldStop(orders, b, t).stops.pending == b.stops.pending
  {
  }

  lemma HeldTold(id: OrderId, env: OrderMap, b: Book)
    requires b.stops.pending == []
    ensures FillsIn(Finish(SubmitPending(env, b), [AcceptCb(id, 0)], false, []).cbs) == []
  {
    assert SubmitPending(env, b) == Submitted(b, [], []);
    OthersAreNone([AcceptCb(id, 0)] + [] + [BookUpdateCb]);
  }

  lemma ReplaceTakenTold(s: Sys, buy: bool, k: nat, t: Tracker, b: Book, d: int, price: nat, orders: OrderMap, v: View)
    requires Replaced(s, buy, k, t, b, d, price, orders, v) && b.stops.pending == []
    ensures var out := ReplaceTaken(s.orders, b, t, d, price); out.matched <==> FillsIn(out.cbs) != []
  {
    hide Inv, TakenOut, Submittable, Coming, Matching.SubmitPending, Matching.AddOrder, FillsIn;
    var head := ReplaceCb(t.ptr, t.openQty, d, price);
    if t.openQty + d == 0 {
      EmptiedTold(s.orders, b, [head, CancelCb(t.ptr, 0)]);
    } else {
      var t' := t.(openQty := t.openQty + d);
      ResubmittedComing(s, buy, k, t, b, d, price, orders, v);
      IsSubmittable(v, b, t');
      SubmissionTold(v, b, t', [head], []);
      EmptyParts([head] + AddOrder(s.orders, b, t', price).fills, [], [], []);
    }
  }

  lemma EmptiedTold(env: OrderMap, b: Book, head: seq<Callback>)
    requires b.stops.pending == [] && NoFills(head)
    ensures FillsIn(head + SubmitPending(env, b).fills + [BookUpdateCb]) == []
  {
    assert SubmitPending(env, b) == Submitted(b, [], []);
    OthersAreNone(head + [] + [BookUpdateCb]);
  }

  /** With no stop order waiting to be submitted, `add` and `replace` report a match exactly when the
      request has fills. */
  lemma MatchedExactlyWhen(s: Sys, r: Request)
    requires Inv(s) && Proper(s, r) && s.book.stops.pending == []
    ensures Told(s, r) <==> FillsIn(Emitted(s, r)) != []
  {
    hide Inv, Fresh, MeetsNone, FillsIn, ReplaceTaken, FindOnMarket, Placed, Recorded;
    match r
    case AddReq(id, order, aon, ioc) =>
      if order.qty == 0 {
        OthersAreNone([RejectCb(id)]);
      } else {
        IsFresh(s, id, order, aon, ioc);
        AddTold(s, id, order, Tracker(id, order.qty, aon, ioc));
      }
    case CancelReq(id) => OthersAreNone(Emitted(s, r));
    case ReplaceReq(id, delta, newPrice) =>
      var buy := IsBuy(s.orders, id);
      var k := FindOnMarket(s.orders, s.book, id);
      if k == |s.book.Side(buy)| {
        OthersAreNone([ReplaceRejectCb(id)]);
      } else {
        var t := s.book.Side(buy)[k].tracker;
        FindsExactlyResting(s, id, k);
        var b, d := Without(s.book, buy, k), ClipDelta(delta, t.openQty);
        var price := if newPrice == 0 then PriceOf(s.orders, id) else newPrice;
        var orders := ApplyCallback(s.orders, ReplaceCb(t.ptr, t.openQty, d, price));
        ReplaceTakenTold(s, buy, k, t, b, d, price, orders, Seen(s.orders, s.book).(denv := orders));
      }
    case MarketPriceReq(_) => OthersAreNone([]);
  }
}
