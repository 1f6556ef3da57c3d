/** All-or-none over whole histories: from its submission on, through any run of requests, an
    all-or-none order has never been filled, or has been filled completely. */
module AonResults {
  import opened Prices
  import opened Orders
  import opened Books
  import opened Matching
  import opened Accounting
  import opened BookRuns
  import opened Cascade
  import opened DepthSpec
  import opened DepthCascade
  import opened Requests
  import opened EngineSteps
  import opened System
  import opened RequestRuns
  import opened RequestInvariants
  import opened Results

  /** No cancelled all-or-none order, and no dropped remainder of one, has ever been filled. */
  lemma RetiredAonNeverFilled(s: Sys, k: nat)
    requires Inv(s) && k < |s.retired| && s.retired[k].aon && s.retired[k].openQty > 0
    ensures FillsOf(s.history, s.retired[k].ptr) == 0
  {
    hide BookOk, Recorded, Placed, BookSum;
    var t := s.retired[k];
    SumAtLeast(LiveOf(t.ptr), s.retired, k);
    SumAtLeast(ExactAon(t.ptr, t.openQty), s.retired, k);
    PlacedAt(s.orders, s.book, [], s.retired, t.ptr, t.openQty);
    FilledIsRecorded(s, t.ptr);
  }

  /** Wherever the order is, at rest, held or given up, it is all-or-none. */
  ghost predicate IsAon(s: Sys, id: OrderId) {
    BookSum(RegularOf(id), s.book) + Sum(RegularOf(id), s.retired) == 0
  }

  lemma {:induction false} RegularIsLive(id: OrderId, ts: seq<Tracker>)
    ensures Sum(RegularOf(id), ts) <= Sum(LiveOf(id), ts)
  {
    if ts != [] {
      RegularIsLive(id, ts[1..]);
    }
  }

  lemma {:induction false} LiveIsAon(id: OrderId, ts: seq<Tracker>) returns (q: nat)
    requires Sum(LiveOf(id), ts) > 0 && Sum(RegularOf(id), ts) == 0
    ensures Sum(ExactAon(id, q), ts) > 0
  {
    if WeightOf(LiveOf(id), ts[0]) > 0 {
      q := ts[0].openQty;
    } else {
      q := LiveIsAon(id, ts[1..]);
    }
  }

  /** All or nothing: an order that is all-or-none wherever it is has all its fills or none. */
  lemma AonAllOrNothing(s: Sys, id: OrderId)
    requires Inv(s) && id in s.orders && IsAon(s, id)
    ensures FillsOf(s.history, id) == 0 || FillsOf(s.history, id) == s.orders[id].qty
  {
    hide BookOk, Recorded, BookLive;
    var ts := BookLive(s.book) + s.retired;
    SumEverywhere(LiveOf(id), s);
    SumEverywhere(RegularOf(id), s);
    SumEverywhere(OpenOf(id), s);
    QuantityConserved(s, id);
    if Sum(LiveOf(id), ts) == 0 {
      NotLiveNotOpen(id, ts);
    } else {
      var q := LiveIsAon(id, ts);
      SumEverywhere(ExactAon(id, q), s);
      PlacedAt(s.orders, s.book, [], s.retired, id, q);
      FilledIsRecorded(s, id);
    }
  }

  lemma SumEverywhere(w: Weight, s: Sys)
    ensures Sum(w, BookLive(s.book) + s.retired) == BookSum(w, s.book) + Sum(w, s.retired)
  {
    SumBookLive(w, s.book);
    SumAppend(w, BookLive(s.book), s.retired);
  }

  lemma FilledIsRecorded(s: Sys, id: OrderId)
    requires Recorded(s.orders, s.history) && id in s.orders
    ensures FillsOf(s.history, id) == s.orders[id].filled
  {
  }

  // ---- Orders stay all-or-none ----

  lemma StepKeepsAon(v: View, b: Book, coming: seq<Tracker>, b': Book, fills: seq<Callback>, dropped: seq<Tracker>,
                     id: OrderId)
    requires EngineStep(v, b, coming, b', fills, dropped)
    requires BookSum(RegularOf(id), b) + Sum(RegularOf(id), coming) == 0
    ensures BookSum(RegularOf(id), b') + Sum(RegularOf(id), dropped) == 0
  {
    assert Falling(RegularOf(id));
  }

  lemma AddKeepsAon(s: Sys, id: OrderId, order: Order, t: Tracker, x: OrderId)
    requires Fresh(s, id, order, t) && IsAon(s, x) && (x == id ==> t.aon)
    ensures IsAon(Handle(s, AddReq(id, order, t.aon, t.ioc)), x)
  {
    hide Inv, BookSum, QueueOk, Coming, EngineStep, Matching.AddOrder, Matching.SubmitPending, HoldStop, Seen, Placed,
         BookOk;
    var orders := s.orders[id := order];
    var v := Seen(orders, s.book, [t]);
    FreshView(s, id, order, t);
    if Held(orders, id, s.book.stops.marketPrice) {
      var b := HoldStop(orders, s.book, t);
      HeldStopInBook(s, id, order, t, b);
      PlacedIsQueue(v, s.orders[id := order.Accept()], b, s.retired);
      CascadeStep(v, b);
      HoldStopCounts(orders, s.book, t, RegularOf(x));
      var r := SubmitPending(orders, b);
      StepKeepsAon(v, b, [], r.book, r.fills, r.dropped, x);
      RetiredWith(x, s.retired, [], r.dropped);
    } else {
      NewOrderComing(s, id, order, t);
      IsSubmission(v, s.book, t);
      SumOne(RegularOf(x), t);
      var a := AddOrder(orders, s.book, t, order.price);
      var r := SubmitPending(orders, a.book);
      StepKeepsAon(v, s.book, [t], r.book, a.fills + r.fills, a.dropped + r.dropped, x);
      RetiredWith(x, s.retired, [], a.dropped + r.dropped);
    }
  }

  lemma RetiredWith(x: OrderId, retired: seq<Tracker>, taken: seq<Tracker>, dropped: seq<Tracker>)
    ensures Sum(RegularOf(x), retired + (taken + dropped))
         == Sum(RegularOf(x), retired) + Sum(RegularOf(x), taken) + Sum(RegularOf(x), dropped)
    ensures [] + dropped == dropped && dropped + [] == dropped
    ensures Sum(RegularOf(x), retired + dropped) == Sum(RegularOf(x), retired) + Sum(RegularOf(x), dropped)
  {
    hide Sum;
    SumAppend(RegularOf(x), retired, taken + dropped);
    SumAppend(RegularOf(x), taken, dropped);
    SumAppend(RegularOf(x), retired, dropped);
  }

  lemma CancelKeepsAon(s: Sys, id: OrderId, x: OrderId)
    requires IsAon(s, x)
    ensures IsAon(Handle(s, CancelReq(id)), x)
  {
    hide BookSum, FindOnMarket;
    var buy := IsBuy(s.orders, id);
    var k := FindOnMarket(s.orders, s.book, id);
    if k < |s.book.Side(buy)| {
      var t := s.book.Side(buy)[k].tracker;
      WithoutCounts(s.book, buy, k, RegularOf(x));
      SumOne(RegularOf(x), t);
      RetiredWith(x, s.retired, [t], []);
    } else {
      RetiredWith(x, s.retired, [], []);
    }
  }

  lemma ReplaceTakenKeepsAon(s: Sys, buy: bool, k: nat, t: Tracker, b: Book, d: int, price: nat, orders: OrderMap,
                             v: View, x: OrderId)
    requires Replaced(s, buy, k, t, b, d, price, orders, v) && IsAon(s, x)
    ensures IsAon(Deliver(s, s.orders, ReplaceTaken(s.orders, b, t, d, price), []), x)
  {
    hide Inv, BookOk, BookSum, QueueOk, Coming, EngineStep, Matching.AddOrder, Matching.SubmitPending, Replaced, Placed,
         Recorded;
    OutOf(s, buy, k, t, b, d, price, orders, v, x);
    if t.openQty + d == 0 {
      EmptiedPlaced(s, buy, k, t, b, d, price, orders, v);
      ReplacedViews(s, buy, k, t, b, d, price, orders, v);
      PlacedIsQueue(v, orders, b, s.retired);
      CascadeStep(v, b);
      var r := SubmitPending(s.orders, b);
      StepKeepsAon(v, b, [], r.book, r.fills, r.dropped, x);
      RetiredWith(x, s.retired, [], r.dropped);
    } else {
      var t' := t.(openQty := t.openQty + d);
      ResubmittedComing(s, buy, k, t, b, d, price, orders, v);
      IsSubmission(v, b, t');
      SumOne(RegularOf(x), t');
      var a := AddOrder(s.orders, b, t', price);
      var r := SubmitPending(s.orders, a.book);
      StepKeepsAon(v, b, [t'], r.book, a.fills + r.fills, a.dropped + r.dropped, x);
      RetiredWith(x, s.retired, [], a.dropped + r.dropped);
    }
  }

  /** A replaced order is what it was, and the rest of the book too. */
  lemma OutOf(s: Sys, buy: bool, k: nat, t: Tracker, b: Book, d: int, price: nat, orders: OrderMap, v: View, x: OrderId)
    requires Replaced(s, buy, k, t, b, d, price, orders, v) && IsAon(s, x)
    ensures BookSum(RegularOf(x), b) == 0 == Sum(RegularOf(x), s.retired) && v.env == s.orders
    ensures t.openQty > 0 && t.openQty + d >= 0
    ensures t.ptr == x ==> t.aon
  {
    hide BookSum, Inv, Placed;
    WithoutCounts(s.book, buy, k, RegularOf(x));
    TakenIsPlaced(s, buy, k, t, b);
  }

  lemma ReplaceKeepsAon(s: Sys, id: OrderId, delta: int, newPrice: nat, x: OrderId)
    requires Inv(s) && id in s.orders && IsAon(s, x)
    ensures IsAon(Handle(s, ReplaceReq(id, delta, newPrice)), x)
  {
    hide Inv, BookSum, FindOnMarket, ReplaceTaken, Placed, Seen;
    var buy := IsBuy(s.orders, id);
    var k := FindOnMarket(s.orders, s.book, id);
    if k < |s.book.Side(buy)| {
      var t := s.book.Side(buy)[k].tracker;
      FindsExactlyResting(s, id, k);
      var d, price := ClipDelta(delta, t.openQty), if newPrice == 0 then PriceOf(s.orders, id) else newPrice;
      var orders := ApplyCallback(s.orders, ReplaceCb(t.ptr, t.openQty, d, price));
      ReplaceTakenKeepsAon(s, buy, k, t, Without(s.book, buy, k), d, price, orders,
                           Seen(s.orders, s.book).(denv := orders), x);
    } else {
      RetiredWith(x, s.retired, [], []);
    }
  }

  lemma MarketPriceKeepsAon(s: Sys, price: nat, x: OrderId)
    requires IsAon(s, x)
    ensures IsAon(Handle(s, MarketPriceReq(price)), x)
  {
    MarketPriceKeepsStops(RegularOf(x), s.book.stops, price);
  }

  /** No request makes an all-or-none order a regular one. */
  lemma HandleKeepsAon(s: Sys, r: Request, x: OrderId)
    requires Inv(s) && Proper(s, r) && IsAon(s, x) && (r.AddReq? ==> r.id != x)
    ensures IsAon(Handle(s, r), x)
  {
    hide Inv, IsAon, MeetsNone, Handle;
    match r
    case AddReq(id, order, aon, ioc) => AddedKeepsAon(s, id, order, aon, ioc, x);
    case CancelReq(id) => CancelKeepsAon(s, id, x);
    case ReplaceReq(id, delta, newPrice) => ReplaceKeepsAon(s, id, delta, newPrice, x);
    case MarketPriceReq(price) => MarketPriceKeepsAon(s, price, x);
  }

  lemma AddedKeepsAon(s: Sys, id: OrderId, order: Order, aon: bool, ioc: bool, x: OrderId)
    requires Inv(s) && Proper(s, AddReq(id, order, aon, ioc)) && IsAon(s, x) && (x == id ==> aon)
    ensures IsAon(Handle(s, AddReq(id, order, aon, ioc)), x)
  {
    hide Inv, MeetsNone, BookSum;
    if order.qty == 0 {
      RetiredWith(x, s.retired, [], []);
    } else {
      IsFresh(s, id, order, aon, ioc);
      AddKeepsAon(s, id, order, Tracker(id, order.qty, aon, ioc), x);
    }
  }

  lemma {:induction false} CallbacksKeepKeys(orders: OrderMap, cbs: seq<Callback>)
    ensures ApplyAll(orders, cbs).Keys == orders.Keys
    decreases |cbs|
  {
    if cbs != [] {
      CallbacksKeepKeys(ApplyCallback(orders, cbs[0]), cbs[1..]);
    }
  }

  /** An order that is known stays known, and is not added again. */
  lemma StaysKnown(s: Sys, r: Request, x: OrderId)
    requires x in s.orders
    ensures x in Handle(s, r).orders && (r.AddReq? && Proper(s, r) ==> r.id != x)
  {
    hide Add, Cancel, Replace, ApplyAll;
    match r
    case AddReq(id, order, aon, ioc) =>
      CallbacksKeepKeys(s.orders[id := order], Add(s.orders[id := order], s.book, id, aon, ioc).cbs);
    case CancelReq(id) => CallbacksKeepKeys(s.orders, Cancel(s.orders, s.book, id).cbs);
    case ReplaceReq(id, delta, newPrice) =>
      CallbacksKeepKeys(s.orders, Replace(s.orders, s.book, id, delta, newPrice).cbs);
    case MarketPriceReq(_) =>
  }

  lemma {:induction false} RunKeepsAon(s: Sys, rs: seq<Request>, s': Sys, x: OrderId)
    requires Inv(s) && Reaches(s, rs, s') && IsAon(s, x) && x in s.orders
    ensures Inv(s') && IsAon(s', x) && x in s'.orders
    decreases |rs|
  {
    hide Inv, IsAon, Handle, Proper;
    if rs != [] {
      StaysKnown(s, rs[0], x);
      HandleKeepsInv(s, rs[0]);
      HandleKeepsAon(s, rs[0], x);
      RunKeepsAon(Handle(s, rs[0]), rs[1..], s', x);
    }
  }

  lemma UnknownIsAon(s: Sys, id: OrderId)
    requires Inv(s) && id !in s.orders
    ensures IsAon(s, id)
  {
    hide BookLive;
    UnknownIsNowhere(s.orders, s.book, s.retired, id);
    SumEverywhere(RegularOf(id), s);
    SumEverywhere(LiveOf(id), s);
    RegularIsLive(id, BookLive(s.book) + s.retired);
  }

  /** Whatever happens after an all-or-none order has been added, none of it has ever been filled, or
      all of it. */
  lemma AddedAonAllOrNothing(s: Sys, id: OrderId, order: Order, ioc: bool, rs: seq<Request>, s': Sys)
    requires Inv(s) && Proper(s, AddReq(id, order, true, ioc))
    requires Reaches(Handle(s, AddReq(id, order, true, ioc)), rs, s')
    ensures id in s'.orders
    ensures FillsOf(s'.history, id) == 0 || FillsOf(s'.history, id) == s'.orders[id].qty
  {
    hide Inv, IsAon, Handle, MeetsNone;
    var r := AddReq(id, order, true, ioc);
    UnknownIsAon(s, id);
    AddedKeepsAon(s, id, order, true, ioc, id);
    HandleKeepsInv(s, r);
    AddedIsKnown(s, id, order, true, ioc);
    RunKeepsAon(Handle(s, r), rs, s', id);
    AonAllOrNothing(s', id);
  }

  lemma AddedIsKnown(s: Sys, id: OrderId, order: Order, aon: bool, ioc: bool)
    ensures id in Handle(s, AddReq(id, order, aon, ioc)).orders
  {
    hide Add, ApplyAll;
    CallbacksKeepKeys(s.orders[id := order], Add(s.orders[id := order], s.book, id, aon, ioc).cbs);
  }
}
