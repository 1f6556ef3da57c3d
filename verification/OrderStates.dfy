/** The state of an order, told by the callbacks alone: it is accepted once the book accepts it,
    cancelled once the book cancels it, and complete exactly when it is filled and was not cancelled. */
module OrderStates {
  import opened Prices
  import opened Orders
  import opened Books
  import opened Matching
  import opened Accounting
  import opened BookRuns
  import opened Cascade
  import opened Trades
  import opened DepthSpec
  import opened DepthCascade
  import opened Requests
  import opened OrdersAfter
  import opened EngineSteps
  import opened System
  import opened RequestRuns
  import opened RequestInvariants
  import opened Results
  import opened Answers

  ghost predicate Accepts(cbs: seq<Callback>, id: OrderId) {
    exists i :: 0 <= i < |cbs| && cbs[i].AcceptCb? && cbs[i].order == id
  }

  ghost predicate Cancels(cbs: seq<Callback>, id: OrderId) {
    exists i :: 0 <= i < |cbs| && cbs[i].CancelCb? && cbs[i].order == id
  }

  ghost function StateNow(cbs: seq<Callback>, id: OrderId, o: Order): OrderState {
    if !Accepts(cbs, id) then New
    else if Cancels(cbs, id) then Cancelled
    else if o.filled < o.qty then Accepted
    else Complete
  }

  ghost predicate StatesRight(orders: OrderMap, history: seq<Callback>) {
    && (forall id :: id in orders ==> orders[id].state == StateNow(history, id, orders[id]))
    && (forall id :: id !in orders ==> !Accepts(history, id) && !Cancels(history, id))
  }

  lemma ToldAppend(a: seq<Callback>, b: seq<Callback>, id: OrderId)
    ensures Accepts(a + b, id) <==> Accepts(a, id) || Accepts(b, id)
    ensures Cancels(a + b, id) <==> Cancels(a, id) || Cancels(b, id)
  {
    var c := a + b;
    forall i | 0 <= i < |a|
      ensures c[i] == a[i]
    {
    }
    forall i | 0 <= i < |b|
      ensures c[|a| + i] == b[i]
    {
    }
  }

  /** Fills, and the book update, accept and cancel nothing. */
  ghost predicate Quiet(cbs: seq<Callback>) {
    forall i :: 0 <= i < |cbs| ==> !cbs[i].AcceptCb? && !cbs[i].CancelCb?
  }

  lemma QuietTellsNothing(history: seq<Callback>, cbs: seq<Callback>, id: OrderId)
    requires Quiet(cbs)
    ensures Accepts(history + cbs, id) == Accepts(history, id) && Cancels(history + cbs, id) == Cancels(history, id)
  {
    ToldAppend(history, cbs, id);
  }

  // ---- What fills do to a state ----

  ghost predicate Positive(fills: seq<Callback>) {
    forall i :: 0 <= i < |fills| ==> fills[i].FillCb? && fills[i].quantity > 0
  }

  /** An order that is filled for something, and then has nothing left, is complete; another one keeps
      its state. */
  predicate Filled(o: Order, o': Order, q: nat) {
    o'.state == if q > 0 && o'.filled >= o.qty then Complete else o.state
  }

  lemma OneFillState(orders: OrderMap, cb: Callback, x: OrderId)
    requires cb.FillCb? && cb.quantity > 0 && x in orders
    ensures var orders' := ApplyCallback(orders, cb);
            x in orders' && orders'[x].qty == orders[x].qty && Filled(orders[x], orders'[x], FillsOf([cb], x))
            && orders'[x].filled == orders[x].filled + FillsOf([cb], x)
  {
    FillsOfOne(cb, x);
  }

  lemma {:induction false} FillsState(orders: OrderMap, fills: seq<Callback>, x: OrderId)
    requires Positive(fills) && x in orders
    ensures var orders' := ApplyAll(orders, fills);
            x in orders' && orders'[x].qty == orders[x].qty && Filled(orders[x], orders'[x], FillsOf(fills, x))
            && orders'[x].filled == orders[x].filled + FillsOf(fills, x)
    decreases |fills|
  {
    hide ApplyCallback;
    if fills != [] {
      OneFillState(orders, fills[0], x);
      FillsState(ApplyCallback(orders, fills[0]), fills[1..], x);
      assert fills == [fills[0]] + fills[1..];
      FillsOfAppend([fills[0]], fills[1..], x);
    }
  }

  /** Fills, perhaps a cancellation of `id`, more fills and the book update. */
  lemma PartsState(orders: OrderMap, f1: seq<Callback>, m: seq<Callback>, f2: seq<Callback>, id: OrderId, x: OrderId)
    requires Positive(f1) && Positive(f2) && (m == [] || m == [CancelCb(id, 0)]) && x in orders
    ensures var orders' := ApplyAll(orders, f1 + m + f2 + [BookUpdateCb]);
            var q := FillsOf(f1 + f2, x);
            && x in orders' && orders'[x].qty == orders[x].qty && orders'[x].filled == orders[x].filled + q
            && (m == [] || x != id ==> Filled(orders[x], orders'[x], q))
            && (m != [] && x == id && orders[x].state == Accepted && orders'[x].filled < orders[x].qty ==>
                orders'[x].state == Cancelled)
  {
    hide ApplyAll, ApplyCallback;
    var o1 := ApplyAll(orders, f1);
    var o2 := ApplyAll(o1, m);
    var o3 := ApplyAll(o2, f2);
    ApplyAllAppend(orders, f1 + m + f2, [BookUpdateCb]);
    ApplyAllAppend(orders, f1 + m, f2);
    ApplyAllAppend(orders, f1, m);
    BookUpdateApplies(o3);
    FillsState(orders, f1, x);
    CancelState(o1, m, id, x);
    FillsState(o2, f2, x);
    FillsOfAppend(f1, f2, x);
  }

  lemma CancelState(orders: OrderMap, m: seq<Callback>, id: OrderId, x: OrderId)
    requires (m == [] || m == [CancelCb(id, 0)]) && x in orders
    ensures var orders' := ApplyAll(orders, m);
            && x in orders' && orders'[x] == orders[x].(state := orders'[x].state)
            && (m == [] || x != id ==> orders'[x] == orders[x])
            && (m != [] && x == id ==>
                orders'[x].state == if orders[x].state == Complete then Complete else Cancelled)
  {
    if m != [] {
      assert m[1..] == [];
      assert ApplyAll(orders, m) == ApplyCallback(orders, m[0]);
    }
  }

  // ---- From an engine step to the states ----

  /** Whoever trades in an engine step was accepted before it. */
  lemma TraderIsAccepted(v: View, orders: OrderMap, b: Book, coming: seq<Tracker>, retired: seq<Tracker>, b': Book,
                         fills: seq<Callback>, dropped: seq<Tracker>, x: OrderId)
    requires Placed(orders, b, coming, retired) && EngineStep(v, b, coming, b', fills, dropped)
    requires FillsOf(fills, x) > 0
    ensures x in orders && orders[x].state == Accepted
  {
    StepTotals(v, b, coming, b', fills, dropped, x, 0);
    hide Placed, EngineStep, BookSum;
    PlacedAt(orders, b, coming, retired, x, 0);
    TotalsRelate(x, 0, b, coming);
  }

  lemma TradesArePositive(v: View, b: Book, coming: seq<Tracker>, b': Book, f1: seq<Callback>, f2: seq<Callback>,
                          dropped: seq<Tracker>)
    requires EngineStep(v, b, coming, b', f1 + f2, dropped)
    ensures Positive(f1) && Positive(f2)
  {
    assert GoodTrades(v, f1 + f2);
    forall i | 0 <= i < |f1|
      ensures f1[i].FillCb? && f1[i].quantity > 0
    {
      assert GoodTrade(v, (f1 + f2)[i]);
    }
    forall i | 0 <= i < |f2|
      ensures f2[i].FillCb? && f2[i].quantity > 0
    {
      assert GoodTrade(v, (f1 + f2)[|f1| + i]);
    }
  }

  lemma PartsTell(history: seq<Callback>, f1: seq<Callback>, m: seq<Callback>, f2: seq<Callback>, id: OrderId,
                  x: OrderId)
    requires Positive(f1) && Positive(f2) && (m == [] || m == [CancelCb(id, 0)])
    ensures var history' := history + (f1 + m + f2 + [BookUpdateCb]);
            && Accepts(history', x) == Accepts(history, x)
            && Cancels(history', x) == (Cancels(history, x) || (m != [] && x == id))
  {
    var cbs := f1 + m + f2 + [BookUpdateCb];
    ToldAppend(history, cbs, x);
    ToldAppend(f1 + m + f2, [BookUpdateCb], x);
    ToldAppend(f1 + m, f2, x);
    ToldAppend(f1, m, x);
    if m != [] {
      assert m[0].CancelCb?;
    }
  }

  /** An engine step, and the fills and the cancellation that tell of it, keep every state right. */
  lemma StatesAfterStep(v: View, orders: OrderMap, b: Book, coming: seq<Tracker>, retired: seq<Tracker>,
                        history: seq<Callback>, b': Book, f1: seq<Callback>, m: seq<Callback>, f2: seq<Callback>,
                        dropped: seq<Tracker>, id: OrderId)
    requires Placed(orders, b, coming, retired) && EngineStep(v, b, coming, b', f1 + f2, dropped)
    requires StatesRight(orders, history)
    requires m == [] || (m == [CancelCb(id, 0)] && id in orders && orders[id].state == Accepted &&
                         orders[id].filled + FillsOf(f1 + f2, id) < orders[id].qty)
    ensures var cbs := f1 + m + f2 + [BookUpdateCb]; StatesRight(ApplyAll(orders, cbs), history + cbs)
  {
    hide Placed, EngineStep, Accepts, Cancels, ApplyAll, Filled, FillsOf;
    var cbs := f1 + m + f2 + [BookUpdateCb];
    var orders' := ApplyAll(orders, cbs);
    TradesArePositive(v, b, coming, b', f1, f2, dropped);
    forall x | x in orders
      ensures x in orders' && orders'[x].state == StateNow(history + cbs, x, orders'[x])
    {
      StateAfterStep(v, orders, b, coming, retired, history, b', f1, m, f2, dropped, id, x);
    }
    forall x | x !in orders
      ensures x !in orders' && !Accepts(history + cbs, x) && !Cancels(history + cbs, x)
    {
      CallbacksKeepKeys(orders, cbs);
      PartsTell(history, f1, m, f2, id, x);
    }
  }

  lemma {:induction false} CallbacksKeepKeys(orders: OrderMap, cbs: seq<Callback>)
    ensures ApplyAll(orders, cbs).Keys == orders.Keys
    decreases |cbs|
  {
    if cbs != [] {
      OneKeepsKeys(orders, cbs[0]);
      CallbacksKeepKeys(ApplyCallback(orders, cbs[0]), cbs[1..]);
    }
  }

  lemma OneKeepsKeys(orders: OrderMap, cb: Callback)
    ensures ApplyCallback(orders, cb).Keys == orders.Keys
  {
    match cb
    case FillCb(id, matched, quantity, price, _, _) =>
      assert FillOne(orders, matched, quantity, price).Keys == orders.Keys;
    case _ =>
  }

  lemma StateAfterStep(v: View, orders: OrderMap, b: Book, coming: seq<Tracker>, retired: seq<Tracker>,
                       history: seq<Callback>, b': Book, f1: seq<Callback>, m: seq<Callback>, f2: seq<Callback>,
                       dropped: seq<Tracker>, id: OrderId, x: OrderId)
    requires Placed(orders, b, coming, retired) && EngineStep(v, b, coming, b', f1 + f2, dropped)
    requires x in orders && orders[x].state == StateNow(history, x, orders[x]) && Positive(f1) && Positive(f2)
    requires m == [] || (m == [CancelCb(id, 0)] && id in orders && orders[id].state == Accepted &&
                         orders[id].filled + FillsOf(f1 + f2, id) < orders[id].qty)
    ensures var cbs := f1 + m + f2 + [BookUpdateCb];
            var orders' := ApplyAll(orders, cbs);
            x in orders' && orders'[x].state == StateNow(history + cbs, x, orders'[x])
  {
    hide Placed, EngineStep, Accepts, Cancels, ApplyAll;
    PartsState(orders, f1, m, f2, id, x);
    PartsTell(history, f1, m, f2, id, x);
    if FillsOf(f1 + f2, x) > 0 {
      TraderIsAccepted(v, orders, b, coming, retired, b', f1 + f2, dropped, x);
    }
  }

  // ---- Requests ----

  lemma HeadFirst(orders: OrderMap, history: seq<Callback>, head: Callback, f1: seq<Callback>, m: seq<Callback>,
                  f2: seq<Callback>)
    ensures var cbs := [head] + f1 + m + f2 + [BookUpdateCb];
            var rest := f1 + m + f2 + [BookUpdateCb];
            && ApplyAll(orders, cbs) == ApplyAll(ApplyCallback(orders, head), rest)
            && history + cbs == history + [head] + rest
  {
    var cbs := [head] + f1 + m + f2 + [BookUpdateCb];
    var rest := f1 + m + f2 + [BookUpdateCb];
    assert cbs == [head] + rest;
    assert cbs[0] == head && cbs[1..] == rest;
  }

  lemma OneTells(history: seq<Callback>, cb: Callback, x: OrderId)
    ensures Accepts(history + [cb], x) == (Accepts(history, x) || (cb.AcceptCb? && cb.order == x))
    ensures Cancels(history + [cb], x) == (Cancels(history, x) || (cb.CancelCb? && cb.order == x))
  {
    ToldAppend(history, [cb], x);
    assert [cb][0] == cb;
  }

  /** A new order becomes known, and is accepted. */
  lemma AcceptedStates(orders: OrderMap, history: seq<Callback>, id: OrderId, order: Order, q: nat)
    requires StatesRight(orders, history) && id !in orders
    requires order.filled == 0 && order.state == New && order.qty > 0
    ensures StatesRight(orders[id := order.Accept()], history + [AcceptCb(id, q)])
  {
    hide Accepts, Cancels;
    var orders' := orders[id := order.Accept()];
    forall x: OrderId
      ensures x in orders' ==> orders'[x].state == StateNow(history + [AcceptCb(id, q)], x, orders'[x])
      ensures x !in orders' ==> !Accepts(history + [AcceptCb(id, q)], x) && !Cancels(history + [AcceptCb(id, q)], x)
    {
      OneTells(history, AcceptCb(id, q), x);
    }
  }

  lemma RemainderIsOpen(v: View, b: Book, t: Tracker, a: Added, r: Submitted)
    requires Submission(v, b, t, a, r) && BookSum(OpenOf(t.ptr), b) == 0 && CancelRest(a.inbound) != []
    ensures FillsOf(a.fills + r.fills, t.ptr) < t.openQty && CancelRest(a.inbound) == [CancelCb(t.ptr, 0)]
  {
    hide BookOk, GoodTrades;
    SumOne(OpenOf(t.ptr), t);
    assert (a.dropped + r.dropped)[0] == a.inbound;
    SumAtLeast(OpenOf(t.ptr), a.dropped + r.dropped, 0);
  }

  lemma SubmittedStates(s: Sys, id: OrderId, order: Order, t: Tracker, a: Added, r: Submitted)
    requires Fresh(s, id, order, t) && StatesRight(s.orders, s.history)
    requires Placed(s.orders[id := order.Accept()], s.book, [t], s.retired)
    requires Submission(Seen(s.orders[id := order], s.book, [t]), s.book, t, a, r)
    ensures var s' := Deliver(s, s.orders[id := order], AddOutcome(order.qty, a, r), []);
            StatesRight(s'.orders, s'.history)
  {
    hide Recorded, Placed, StatesRight, ApplyAll, EngineStep, BookOk, Seen, BookSum;
    var orders, accepted := s.orders[id := order], s.orders[id := order.Accept()];
    var v := Seen(orders, s.book, [t]);
    FreshView(s, id, order, t);
    var head, m := AcceptCb(id, order.qty - Min(order.qty, a.inbound.openQty)), CancelRest(a.inbound);
    AcceptStarts(s.orders, id, order, head.quantity, v);
    AcceptedStates(s.orders, s.history, id, order, head.quantity);
    UnknownIsNowhere(s.orders, s.book, s.retired, id);
    if m != [] {
      RemainderIsOpen(v, s.book, t, a, r);
    }
    StatesAfterStep(v, accepted, s.book, [t], s.retired, s.history + [head], r.book, a.fills, m, r.fills,
                    a.dropped + r.dropped, id);
    AddedShape(s, orders, id, order.qty, a, r);
    HeadFirst(orders, s.history, head, a.fills, m, r.fills);
  }

  lemma HeldStates(s: Sys, id: OrderId, order: Order, t: Tracker, b: Book, r: Submitted)
    requires Fresh(s, id, order, t) && StatesRight(s.orders, s.history)
    requires Placed(s.orders[id := order.Accept()], b, [], s.retired)
    requires EngineStep(Seen(s.orders[id := order], s.book, [t]), b, [], r.book, r.fills, r.dropped)
    ensures var s' := Deliver(s, s.orders[id := order], Finish(r, [AcceptCb(id, 0)], false, []), []);
            StatesRight(s'.orders, s'.history)
  {
    hide Inv, Placed, StatesRight, ApplyAll, EngineStep, BookOk, Seen, BookSum;
    var orders, accepted := s.orders[id := order], s.orders[id := order.Accept()];
    var v := Seen(orders, s.book, [t]);
    FreshView(s, id, order, t);
    AcceptStarts(s.orders, id, order, 0, v);
    AcceptedStates(s.orders, s.history, id, order, 0);
    NoneBefore(r.fills);
    StatesAfterStep(v, accepted, b, [], s.retired, s.history + [AcceptCb(id, 0)], r.book, [], [], r.fills, r.dropped,
                    id);
    HeadFirst(orders, s.history, AcceptCb(id, 0), [], [], r.fills);
    EmptyParts([AcceptCb(id, 0)], [], r.fills, [BookUpdateCb]);
    EmptyParts([AcceptCb(id, 0)], r.fills, [BookUpdateCb], []);
  }

  lemma NoneBefore(fills: seq<Callback>)
    ensures [] + fills == fills
  {
  }

  lemma AddKeepsStates(s: Sys, id: OrderId, order: Order, t: Tracker)
    requires Fresh(s, id, order, t) && StatesRight(s.orders, s.history)
    ensures var s' := Handle(s, AddReq(id, order, t.aon, t.ioc)); StatesRight(s'.orders, s'.history)
  {
    hide Inv, Placed, StatesRight, BookOk, EngineStep, QueueOk, Seen, Coming, Submission, Deliver, HoldStop,
         Matching.AddOrder, Matching.SubmitPending;
    var orders := s.orders[id := order];
    var v := Seen(orders, s.book, [t]);
    FreshView(s, id, order, t);
    if Held(orders, id, s.book.stops.marketPrice) {
      var b := HoldStop(orders, s.book, t);
      HeldStopInBook(s, id, order, t, b);
      PlacedIsQueue(v, s.orders[id := order.Accept()], b, s.retired);
      CascadeStep(v, b);
      HeldStates(s, id, order, t, b, SubmitPending(orders, b));
    } else {
      NewOrderComing(s, id, order, t);
      IsSubmission(v, s.book, t);
      var a := AddOrder(orders, s.book, t, order.price);
      SubmittedStates(s, id, order, t, a, SubmitPending(orders, a.book));
    }
  }

  lemma RejectedStates(s: Sys, id: OrderId, order: Order, aon: bool, ioc: bool)
    requires StatesRight(s.orders, s.history) && id !in s.orders && order.qty == 0 && order.state == New
    ensures var s' := Handle(s, AddReq(id, order, aon, ioc)); StatesRight(s'.orders, s'.history)
  {
    hide Accepts, Cancels;
    RejectedShape(s, id, order, aon, ioc);
    var orders := s.orders[id := order];
    assert ApplyAll(orders, [RejectCb(id)]) == orders by { assert [RejectCb(id)][1..] == []; }
    forall x: OrderId
      ensures x in orders ==> orders[x].state == StateNow(s.history + [RejectCb(id)], x, orders[x])
      ensures x !in orders ==> !Accepts(s.history + [RejectCb(id)], x) && !Cancels(s.history + [RejectCb(id)], x)
    {
      OneTells(s.history, RejectCb(id), x);
    }
  }

  /** A rejected cancellation or replacement tells of no state. */
  lemma QuietStates(orders: OrderMap, history: seq<Callback>, cb: Callback)
    requires StatesRight(orders, history) && Quiet([cb])
    ensures StatesRight(orders, history + [cb])
  {
    hide Accepts, Cancels;
    forall x: OrderId
      ensures Accepts(history + [cb], x) == Accepts(history, x) && Cancels(history + [cb], x) == Cancels(history, x)
    {
      QuietTellsNothing(history, [cb], x);
    }
  }

  /** An accepted order is cancelled. */
  lemma CancelledStates(orders: OrderMap, history: seq<Callback>, id: OrderId, q: nat)
    requires id in orders && orders[id].state == Accepted && Accepts(history, id)
    requires forall x :: x in orders && x != id ==> orders[x].state == StateNow(history, x, orders[x])
    requires forall x :: x !in orders ==> !Accepts(history, x) && !Cancels(history, x)
    ensures StatesRight(ApplyCallback(orders, CancelCb(id, q)), history + [CancelCb(id, q)])
  {
    hide Accepts, Cancels;
    var orders' := ApplyCallback(orders, CancelCb(id, q));
    forall x: OrderId
      ensures x in orders' ==> orders'[x].state == StateNow(history + [CancelCb(id, q)], x, orders'[x])
      ensures x !in orders' ==> !Accepts(history + [CancelCb(id, q)], x) && !Cancels(history + [CancelCb(id, q)], x)
    {
      OneTells(history, CancelCb(id, q), x);
    }
  }

  lemma CancelKeepsStates(s: Sys, id: OrderId)
    requires Inv(s) && StatesRight(s.orders, s.history)
    ensures var s' := Handle(s, CancelReq(id)); StatesRight(s'.orders, s'.history)
  {
    hide Inv, Accepts, Cancels, FindOnMarket, ApplyAll, StatesRight;
    var buy := IsBuy(s.orders, id);
    var k := FindOnMarket(s.orders, s.book, id);
    CancelShape(s, id);
    if k == |s.book.Side(buy)| {
      RejectionChangesNothing(s, CancelRejectCb(id));
      QuietStates(s.orders, s.history, CancelRejectCb(id));
    } else {
      var t := s.book.Side(buy)[k].tracker;
      RestingMirrorsOrder(s, buy, k);
      ThenBookUpdate(s.orders, CancelCb(t.ptr, t.openQty));
      RestingStates(s, t.ptr);
      CancelledStates(s.orders, s.history, t.ptr, t.openQty);
      QuietStates(ApplyCallback(s.orders, CancelCb(t.ptr, t.openQty)), s.history + [CancelCb(t.ptr, t.openQty)],
                  BookUpdateCb);
      ThenUpdated(s.history, CancelCb(t.ptr, t.openQty));
    }
  }

  lemma ThenUpdated(history: seq<Callback>, cb: Callback)
    ensures history + [cb, BookUpdateCb] == history + [cb] + [BookUpdateCb]
  {
  }

  lemma RestingStates(s: Sys, id: OrderId)
    requires StatesRight(s.orders, s.history) && id in s.orders && s.orders[id].state == Accepted
    ensures Accepts(s.history, id) && !Cancels(s.history, id)
    ensures forall x :: x in s.orders ==> s.orders[x].state == StateNow(s.history, x, s.orders[x])
    ensures forall x :: x !in s.orders ==> !Accepts(s.history, x) && !Cancels(s.history, x)
  {
  }

  /** A replace callback by itself: every state but that of an order it empties is right. */
  lemma ReplacedStates(s: Sys, buy: bool, k: nat, t: Tracker, b: Book, d: int, price: nat, orders: OrderMap, v: View)
    requires Replaced(s, buy, k, t, b, d, price, orders, v) && StatesRight(s.orders, s.history)
    ensures var history := s.history + [ReplaceCb(t.ptr, t.openQty, d, price)];
            && t.ptr in orders && orders[t.ptr].state == Accepted && Accepts(history, t.ptr)
            && orders[t.ptr].qty == orders[t.ptr].filled + (t.openQty + d)
            && (forall x :: x in orders && x != t.ptr ==> orders[x].state == StateNow(history, x, orders[x]))
            && (forall x :: x !in orders ==> !Accepts(history, x) && !Cancels(history, x))
            && (t.openQty + d > 0 ==> StatesRight(orders, history))
  {
    hide Inv, Placed, Accepts, Cancels;
    var cb := ReplaceCb(t.ptr, t.openQty, d, price);
    ReplacedOrder(s, buy, k, t, b, d, price, orders, v);
    TakenIsMirrored(s, buy, k, t, b);
    RestingStates(s, t.ptr);
    forall x: OrderId
      ensures Accepts(s.history + [cb], x) == Accepts(s.history, x)
      ensures Cancels(s.history + [cb], x) == Cancels(s.history, x)
    {
      QuietTellsNothing(s.history, [cb], x);
    }
  }

  lemma ResubmittedStates(s: Sys, buy: bool, k: nat, t: Tracker, b: Book, d: int, price: nat, orders: OrderMap,
                          v: View, a: Added, r: Submitted)
    requires Replaced(s, buy, k, t, b, d, price, orders, v) && !t.ioc && t.openQty + d > 0
    requires StatesRight(s.orders, s.history)
    requires Placed(orders, b, [t.(openQty := t.openQty + d)], s.retired)
    requires Submission(v, b, t.(openQty := t.openQty + d), a, r)
    ensures var s' := Deliver(s, s.orders, Finish(r, [ReplaceCb(t.ptr, t.openQty, d, price)] + a.fills, a.matched,
                                                  a.dropped), []);
            StatesRight(s'.orders, s'.history)
  {
    hide Inv, Placed, StatesRight, ApplyAll, EngineStep, BookOk, Seen, BookSum, TakenOut, Accepts, Cancels, StateNow;
    var head := ReplaceCb(t.ptr, t.openQty, d, price);
    ReplacedStates(s, buy, k, t, b, d, price, orders, v);
    StatesAfterStep(v, orders, b, [t.(openQty := t.openQty + d)], s.retired, s.history + [head], r.book, a.fills, [],
                    r.fills, a.dropped + r.dropped, t.ptr);
    ResubmittedShape(s, head, a, r);
    HeadFirst(s.orders, s.history, head, a.fills, [], r.fills);
  }

  lemma EmptiedStates(s: Sys, buy: bool, k: nat, t: Tracker, b: Book, d: int, price: nat, orders: OrderMap, v: View,
                      r: Submitted)
    requires Replaced(s, buy, k, t, b, d, price, orders, v) && t.openQty + d == 0 && StatesRight(s.orders, s.history)
    requires Placed(orders, b, [], s.retired)
    requires EngineStep(v, b, [], r.book, r.fills, r.dropped)
    ensures var s' := Deliver(s, s.orders, Finish(r, [ReplaceCb(t.ptr, t.openQty, d, price), CancelCb(t.ptr, 0)], false,
                                                  []), []);
            StatesRight(s'.orders, s'.history)
  {
    hide Inv, Placed, StatesRight, ApplyAll, EngineStep, BookOk, Seen, BookSum, TakenOut, Accepts, Cancels, StateNow;
    TakenIsPlaced(s, buy, k, t, b);
    var head, m := ReplaceCb(t.ptr, t.openQty, d, price), CancelCb(t.ptr, 0);
    var closed := ApplyCallback(orders, m);
    ReplacedStates(s, buy, k, t, b, d, price, orders, v);
    CancelledStates(orders, s.history + [head], t.ptr, 0);
    ClosedIsPlaced(orders, b, s.retired, t.ptr);
    NoneBefore(r.fills);
    StatesAfterStep(v, closed, b, [], s.retired, s.history + [head] + [m], r.book, [], [], r.fills, r.dropped, t.ptr);
    EmptiedShape(s, head, t.ptr, r);
    TwoHeads(s.orders, s.history, head, m, r.fills);
  }

  lemma TwoHeads(orders: OrderMap, history: seq<Callback>, head: Callback, m: Callback, f: seq<Callback>)
    ensures var cbs := [head] + [m] + f + [BookUpdateCb];
            var rest := [] + [] + f + [BookUpdateCb];
            && ApplyAll(orders, cbs) == ApplyAll(ApplyCallback(ApplyCallback(orders, head), m), rest)
            && history + cbs == history + [head] + [m] + rest
  {
    hide ApplyAll, ApplyCallback;
    var rest := [] + [] + f + [BookUpdateCb];
    TwoFirst(head, m, f);
    ApplyAllAppend(orders, [head], [m] + rest);
    ApplyAllAppend(ApplyAll(orders, [head]), [m], rest);
    ApplyOne(orders, head);
    ApplyOne(ApplyCallback(orders, head), m);
  }

  lemma TwoFirst(head: Callback, m: Callback, f: seq<Callback>)
    ensures [head] + [m] + f + [BookUpdateCb] == [head] + ([m] + ([] + [] + f + [BookUpdateCb]))
  {
  }

  lemma ApplyOne(orders: OrderMap, cb: Callback)
    ensures ApplyAll(orders, [cb]) == ApplyCallback(orders, cb)
  {
    assert [cb][1..] == [];
  }

  lemma ClosedIsPlaced(orders: OrderMap, b: Book, retired: seq<Tracker>, id: OrderId)
    requires Placed(orders, b, [], retired) && id in orders && BookSum(LiveOf(id), b) == 0
    ensures Placed(ApplyCallback(orders, CancelCb(id, 0)), b, [], retired)
  {
    var o := ApplyCallback(orders, CancelCb(id, 0))[id];
    assert ApplyCallback(orders, CancelCb(id, 0)) == orders[id := o];
    ReplacedStatePlaced(orders, b, retired, id, o);
  }

  /** The state of an order that is not in the book does not matter for where orders are. */
  lemma ReplacedStatePlaced(orders: OrderMap, b: Book, retired: seq<Tracker>, id: OrderId, o: Order)
    requires Placed(orders, b, [], retired) && id in orders && BookSum(LiveOf(id), b) == 0
    requires o.qty == orders[id].qty && o.filled == orders[id].filled
    ensures Placed(orders[id := o], b, [], retired)
  {
    hide BookSum;
    var orders' := orders[id := o];
    forall x: OrderId, q: nat
      ensures BookSum(LiveOf(x), b) + Sum(LiveOf(x), []) + Sum(LiveOf(x), retired) <= (if x in orders' then 1 else 0)
      ensures x in orders' ==>
              orders'[x].qty == BookSum(OpenOf(x), b) + Sum(OpenOf(x), []) + orders'[x].filled + Sum(OpenOf(x), retired)
      ensures x in orders' && BookSum(LiveOf(x), b) + Sum(LiveOf(x), []) > 0 ==> orders'[x].state == Accepted
      ensures x in orders' ==>
              BookSum(ExactAon(x, q), b) + Sum(ExactAon(x, q), []) + Sum(ExactAon(x, q), retired) == 0
              || orders'[x].filled == 0
    {
      PlacedAt(orders, b, [], retired, x, q);
    }
  }

  lemma ReplaceTakenKeepsStates(s: Sys, buy: bool, k: nat, t: Tracker, b: Book, d: int, price: nat, orders: OrderMap,
                                v: View)
    requires Replaced(s, buy, k, t, b, d, price, orders, v) && StatesRight(s.orders, s.history)
    ensures var s' := Deliver(s, s.orders, ReplaceTaken(s.orders, b, t, d, price), []);
            StatesRight(s'.orders, s'.history)
  {
    hide Inv, Placed, StatesRight, BookOk, EngineStep, QueueOk, Coming, Submission, TakenOut, Deliver,
         Matching.AddOrder, Matching.SubmitPending;
    if t.openQty + d == 0 {
      EmptiedPlaced(s, buy, k, t, b, d, price, orders, v);
      ReplacedViews(s, buy, k, t, b, d, price, orders, v);
      PlacedIsQueue(v, orders, b, s.retired);
      CascadeStep(v, b);
      EmptiedStates(s, buy, k, t, b, d, price, orders, v, SubmitPending(s.orders, b));
    } else {
      var t' := t.(openQty := t.openQty + d);
      ResubmittedComing(s, buy, k, t, b, d, price, orders, v);
      ReplacedPlaced(s, buy, k, t, b, d, price, orders, v);
      IsSubmission(v, b, t');
      var a := AddOrder(s.orders, b, t', price);
      ResubmittedStates(s, buy, k, t, b, d, price, orders, v, a, SubmitPending(s.orders, a.book));
    }
  }

  lemma ReplaceKeepsStates(s: Sys, id: OrderId, delta: int, newPrice: nat)
    requires Inv(s) && StatesRight(s.orders, s.history)
    ensures var s' := Handle(s, ReplaceReq(id, delta, newPrice)); StatesRight(s'.orders, s'.history)
  {
    hide Inv, StatesRight, ReplaceTaken, FindOnMarket, Placed, Recorded, BookOk;
    var buy := IsBuy(s.orders, id);
    var k := FindOnMarket(s.orders, s.book, id);
    if k == |s.book.Side(buy)| {
      RejectionChangesNothing(s, ReplaceRejectCb(id));
      QuietStates(s.orders, s.history, ReplaceRejectCb(id));
    } else {
      var t := s.book.Side(buy)[k].tracker;
      FindsExactlyResting(s, id, k);
      var b, d := Without(s.book, buy, k), ClipDelta(delta, t.openQty);
      var price := if newPrice == 0 then PriceOf(s.orders, id) else newPrice;
      var orders := ApplyCallback(s.orders, ReplaceCb(t.ptr, t.openQty, d, price));
      ReplaceTakenKeepsStates(s, buy, k, t, b, d, price, orders, Seen(s.orders, s.book).(denv := orders));
    }
  }

  lemma HandleKeepsStates(s: Sys, r: Request)
    requires Inv(s) && Proper(s, r) && StatesRight(s.orders, s.history)
    ensures StatesRight(Handle(s, r).orders, Handle(s, r).history)
  {
    hide Inv, StatesRight, MeetsNone, Fresh;
    match r
    case AddReq(id, order, aon, ioc) =>
      if order.qty == 0 {
        RejectedStates(s, id, order, aon, ioc);
      } else {
        IsFresh(s, id, order, aon, ioc);
        AddKeepsStates(s, id, order, Tracker(id, order.qty, aon, ioc));
      }
    case CancelReq(id) => CancelKeepsStates(s, id);
    case ReplaceReq(id, delta, newPrice) => ReplaceKeepsStates(s, id, delta, newPrice);
    case MarketPriceReq(price) =>
  }

  lemma {:induction false} RunKeepsStates(s: Sys, rs: seq<Request>, s': Sys)
    requires Inv(s) && Reaches(s, rs, s') && StatesRight(s.orders, s.history)
    ensures StatesRight(s'.orders, s'.history)
    decreases |rs|
  {
    hide Inv, StatesRight, Handle, Proper;
    if rs != [] {
      HandleKeepsInv(s, rs[0]);
      HandleKeepsStates(s, rs[0]);
      RunKeepsStates(Handle(s, rs[0]), rs[1..], s');
    }
  }

  /** After any run the state of every order is what the callbacks have told: new until it is
      accepted, cancelled once it was cancelled, and otherwise complete exactly when its fills add up
      to its size. */
  lemma StateIsTold(rs: seq<Request>, s: Sys, id: OrderId)
    requires Reaches(START, rs, s) && id in s.orders
    ensures var o := s.orders[id];
            && (o.state == New <==> !Accepts(s.history, id))
            && (o.state == Cancelled <==> Accepts(s.history, id) && Cancels(s.history, id))
            && (o.state == Complete <==>
                Accepts(s.history, id) && !Cancels(s.history, id) && o.qty <= FillsOf(s.history, id))
  {
    hide Inv, Reaches, Accepts, Cancels, FillsOf;
    StartHasInv();
    StartStates();
    RunKeepsStates(START, rs, s);
    OrderKeepsAccount(rs, s, id);
  }

  lemma StartStates()
    ensures StatesRight(START.orders, START.history)
  {
  }
}
