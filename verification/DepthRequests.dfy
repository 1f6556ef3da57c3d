/** Depth agreement request by request: fold the callbacks a request emits, and the depth
    shows the book the request leaves. */
module DepthRequests {
  import opened Prices
  import opened Orders
  import opened Books
  import opened Matching
  import opened Faces
  import opened Accounting
  import opened BookRuns
  import opened Cascade
  import opened Trades
  import opened Options
  import opened DepthSpec
  import opened DepthRuns
  import opened DepthCascade
  import opened Requests
  import opened OrdersAfter
  import opened EngineSteps
  import opened System
  import opened RequestRuns

  /** The depth shows exactly the limit orders of the book, at rest, held or pending, and
      waits for no fill to be ignored. */
  ghost predicate Shows(d: AbsDepth, orders: OrderMap, b: Book) {
    Agrees(d, orders, BookLive(b)) && NothingIgnored(d)
  }

  // ---- Order maps that look alike ----

  /** The same price and side for every order. */
  ghost predicate SameLook(a: OrderMap, b: OrderMap) {
    forall id :: PriceOf(a, id) == PriceOf(b, id) && IsBuy(a, id) == IsBuy(b, id)
  }

  /** The same price and side for every order that is live. */
  ghost predicate LookAlike(a: OrderMap, b: OrderMap, live: seq<Tracker>) {
    forall k :: 0 <= k < |live| && live[k].openQty > 0 ==>
      PriceOf(a, live[k].ptr) == PriceOf(b, live[k].ptr) && IsBuy(a, live[k].ptr) == IsBuy(b, live[k].ptr)
  }

  lemma {:induction false} LevelOfLook(a: OrderMap, b: OrderMap, live: seq<Tracker>, buy: bool, price: nat)
    requires LookAlike(a, b, live)
    ensures LevelOf(a, live, buy, price) == LevelOf(b, live, buy, price)
  {
    if live != [] {
      LevelOfLook(a, b, live[1..], buy, price);
    }
  }

  lemma AgreesLook(d: AbsDepth, a: OrderMap, b: OrderMap, live: seq<Tracker>)
    requires Agrees(d, a, live) && LookAlike(a, b, live)
    ensures Agrees(d, b, live)
  {
    forall buy, price | price != 0
      ensures d.Side(buy).At(price) == LevelOf(b, live, buy, price)
    {
      LevelOfLook(a, b, live, buy, price);
    }
  }

  lemma BookLiveIsLive(b: Book, k: nat)
    requires k < |BookLive(b)| && BookLive(b)[k].openQty > 0
    ensures BookSum(LiveOf(BookLive(b)[k].ptr), b) > 0
  {
    var w := LiveOf(BookLive(b)[k].ptr);
    SumBookLive(w, b);
    SumAtLeast(w, BookLive(b), k);
  }

  /** A change to an order that is not in the book does not show. */
  lemma ShowsLook(d: AbsDepth, a: OrderMap, orders: OrderMap, b: Book)
    requires Shows(d, a, b)
    requires forall id :: BookSum(LiveOf(id), b) > 0 ==>
             PriceOf(a, id) == PriceOf(orders, id) && IsBuy(a, id) == IsBuy(orders, id)
    ensures Shows(d, orders, b)
  {
    forall k | 0 <= k < |BookLive(b)| && BookLive(b)[k].openQty > 0
      ensures PriceOf(a, BookLive(b)[k].ptr) == PriceOf(orders, BookLive(b)[k].ptr)
      ensures IsBuy(a, BookLive(b)[k].ptr) == IsBuy(orders, BookLive(b)[k].ptr)
    {
      BookLiveIsLive(b, k);
    }
    AgreesLook(d, a, orders, BookLive(b));
  }

  // ---- Market orders do not show ----

  ghost predicate AllMarket(env: OrderMap, ts: seq<Tracker>) {
    forall k :: 0 <= k < |ts| ==> PriceOf(env, ts[k].ptr) == MARKET_ORDER_PRICE
  }

  lemma {:induction false} MarketHasNoLevel(env: OrderMap, ts: seq<Tracker>, buy: bool, price: nat)
    requires AllMarket(env, ts) && price != 0
    ensures LevelOf(env, ts, buy, price) == Level(0, 0)
  {
    if ts != [] {
      MarketHasNoLevel(env, ts[1..], buy, price);
    }
  }

  lemma LevelOfAppend(env: OrderMap, a: seq<Tracker>, b: seq<Tracker>, buy: bool, price: nat)
    ensures var l, m := LevelOf(env, a, buy, price), LevelOf(env, b, buy, price);
            LevelOf(env, a + b, buy, price) == Level(l.count + m.count, l.qty + m.qty)
  {
    SumAppend(CountAt(env, buy, price), a, b);
    SumAppend(QtyAt(env, buy, price), a, b);
  }

  /** With or without some market orders, it is the same depth. */
  lemma MarketUnseen(d: AbsDepth, env: OrderMap, ts: seq<Tracker>, live: seq<Tracker>)
    requires AllMarket(env, ts)
    ensures Agrees(d, env, ts + live) <==> Agrees(d, env, live)
  {
    forall buy, price | price != 0
      ensures LevelOf(env, ts + live, buy, price) == LevelOf(env, live, buy, price)
    {
      MarketHasNoLevel(env, ts, buy, price);
      LevelOfAppend(env, ts, live, buy, price);
    }
  }

  /** A depth that shows some dropped orders too is right without them exactly when they are market
      orders: a limit order that is gone without a word is still counted at its level. */
  lemma DroppedShownExactlyWhen(d: AbsDepth, env: OrderMap, dropped: seq<Tracker>, live: seq<Tracker>)
    requires Agrees(d, env, dropped + live) && IocRemainders(dropped)
    ensures Agrees(d, env, live) <==> AllMarket(env, dropped)
  {
    MarketUnseenWhenAll(d, env, dropped, live);
    if !AllMarket(env, dropped) {
      var k :| 0 <= k < |dropped| && PriceOf(env, dropped[k].ptr) != MARKET_ORDER_PRICE;
      var buy, price := IsBuy(env, dropped[k].ptr), PriceOf(env, dropped[k].ptr);
      LevelOfAppend(env, dropped, live, buy, price);
      SumAtLeast(CountAt(env, buy, price), dropped, k);
      assert d.Side(buy).At(price) == LevelOf(env, dropped + live, buy, price);
      assert LevelOf(env, dropped, buy, price).count > 0;
    }
  }

  lemma MarketUnseenWhenAll(d: AbsDepth, env: OrderMap, ts: seq<Tracker>, live: seq<Tracker>)
    ensures AllMarket(env, ts) ==> (Agrees(d, env, ts + live) <==> Agrees(d, env, live))
  {
    if AllMarket(env, ts) {
      MarketUnseen(d, env, ts, live);
    }
  }

  /** A limit order shown next to the others. */
  lemma ShownOrderAgrees(d: AbsDepth, env: OrderMap, t: Tracker, live: seq<Tracker>)
    requires Agrees(d, env, live) && PriceOf(env, t.ptr) != MARKET_ORDER_PRICE && t.openQty > 0
    ensures var buy := IsBuy(env, t.ptr);
            Agrees(d.With(buy, d.Side(buy).AddOrder(PriceOf(env, t.ptr), t.openQty)), env, [t] + live)
  {
    var b := IsBuy(env, t.ptr);
    var d' := d.With(b, d.Side(b).AddOrder(PriceOf(env, t.ptr), t.openQty));
    forall buy, price | price != 0
      ensures d'.Side(buy).At(price) == LevelOf(env, [t] + live, buy, price)
    {
      LevelOfAppend(env, [t], live, buy, price);
      SumOne(CountAt(env, buy, price), t);
      SumOne(QtyAt(env, buy, price), t);
      assert d.Side(buy).At(price) == LevelOf(env, live, buy, price);
    }
  }

  // ---- Folding the callbacks of a request ----

  lemma {:induction false} FoldDepthAppend(d: AbsDepth, orders: OrderMap, a: seq<Callback>, b: seq<Callback>)
    requires FoldDepth(d, orders, a).Some?
    ensures FoldDepth(d, orders, a + b) == FoldDepth(FoldDepth(d, orders, a).value, ApplyAll(orders, a), b)
    decreases |a|
  {
    if a == [] {
      assert a + b == b;
    } else {
      assert (a + b)[0] == a[0] && (a + b)[1..] == a[1..] + b;
      FoldDepthAppend(OnCallback(d, orders, a[0]).value, ApplyCallback(orders, a[0]), a[1..], b);
    }
  }

  lemma FillReadsAlike(d: AbsDepth, orders: OrderMap, denv: OrderMap, cb: Callback)
    requires cb.FillCb? && SameLook(orders, denv)
    ensures OnCallback(d, orders, cb) == OnCallback(d, denv, cb)
    ensures SameLook(ApplyCallback(orders, cb), denv)
  {
    hide Agrees;
    forall id: OrderId
      ensures PriceOf(ApplyCallback(orders, cb), id) == PriceOf(denv, id)
      ensures IsBuy(ApplyCallback(orders, cb), id) == IsBuy(denv, id)
    {
      assert PriceOf(orders, id) == PriceOf(denv, id);
    }
  }

  /** Fills change neither price nor side of any order, so the depth may read them against
      the orders the engine saw. */
  lemma {:induction false} FoldDepthOfFills(d: AbsDepth, orders: OrderMap, denv: OrderMap, fills: seq<Callback>)
    requires AllFills(fills) && SameLook(orders, denv)
    ensures FoldDepth(d, orders, fills) == FoldFills(d, denv, fills)
    ensures SameLook(ApplyAll(orders, fills), denv)
    decreases |fills|
  {
    if fills != [] {
      FillReadsAlike(d, orders, denv, fills[0]);
      var r := OnCallback(d, denv, fills[0]);
      FoldDepthOfFills(if r.Some? then r.value else d, ApplyCallback(orders, fills[0]), denv, fills[1..]);
    }
  }

  /** A cancellation the depth has nothing to do with: none, or that of a market order. */
  predicate Unseen(m: seq<Callback>, denv: OrderMap) {
    m == [] || (|m| == 1 && m[0].CancelCb? && PriceOf(denv, m[0].order) == MARKET_ORDER_PRICE)
  }

  lemma UnseenFolds(d: AbsDepth, orders: OrderMap, denv: OrderMap, m: seq<Callback>)
    requires Unseen(m, denv) && SameLook(orders, denv)
    ensures FoldDepth(d, orders, m) == Some(d) && SameLook(ApplyAll(orders, m), denv)
  {
    if m != [] {
      assert m == [m[0]];
      assert ApplyAll(orders, m) == ApplyCallback(orders, m[0]);
      assert m[0].order in orders ==> PriceOf(orders, m[0].order) == orders[m[0].order].price;
      assert FoldDepth(d, orders, m) == FoldDepth(d, ApplyCallback(orders, m[0]), m[1..]);
    }
  }

  lemma UpdateFolds(d: AbsDepth, orders: OrderMap)
    ensures FoldDepth(d, orders, [BookUpdateCb]) == Some(d) && ApplyAll(orders, [BookUpdateCb]) == orders
  {
    BookUpdateApplies(orders);
  }

  /** The callbacks of a request: some first ones, fills, a cancellation that does not show,
      more fills, and the update. */
  lemma RequestFolds(d: AbsDepth, started: OrderMap, heads: seq<Callback>, d1: AbsDepth, denv: OrderMap,
                     f1: seq<Callback>, m: seq<Callback>, f2: seq<Callback>)
    requires FoldDepth(d, started, heads) == Some(d1) && SameLook(ApplyAll(started, heads), denv)
    requires AllFills(f1) && AllFills(f2) && Unseen(m, denv) && FoldFills(d1, denv, f1 + f2).Some?
    requires FoldFills(d1, denv, f1).Some?
    ensures var cbs := heads + f1 + m + f2 + [BookUpdateCb];
            FoldDepth(d, started, cbs) == FoldFills(d1, denv, f1 + f2) && SameLook(ApplyAll(started, cbs), denv)
  {
    var o1 := ApplyAll(started, heads);
    var o2, d2 := ApplyAll(o1, f1), FoldFills(d1, denv, f1).value;
    var o3 := ApplyAll(o2, m);
    var o4 := ApplyAll(o3, f2);
    FoldDepthOfFills(d1, o1, denv, f1);
    UnseenFolds(d2, o2, denv, m);
    FoldDepthOfFills(d2, o3, denv, f2);
    FoldFillsAppend(d1, denv, f1, f2);
    FoldDepthAppend(d, started, heads, f1);
    ApplyAllAppend(started, heads, f1);
    FoldDepthAppend(d, started, heads + f1, m);
    ApplyAllAppend(started, heads + f1, m);
    FoldDepthAppend(d, started, heads + f1 + m, f2);
    ApplyAllAppend(started, heads + f1 + m, f2);
    FoldDepthAppend(d, started, heads + f1 + m + f2, [BookUpdateCb]);
    ApplyAllAppend(started, heads + f1 + m + f2, [BookUpdateCb]);
    UpdateFolds(FoldFills(d2, denv, f2).value, o4);
  }

  // ---- A submission and the cascade after it ----

  /** The fold of everything the engine traded, compared with all that is live or dropped. */
  ghost predicate EngineFolds(d: AbsDepth, v: View, a: Added, r: Submitted) {
    && FoldFills(d, v.denv, a.fills).Some?
    && FoldsTo(d, v, a.fills + r.fills, a.dropped + r.dropped + BookLive(r.book))
  }

  lemma CascadeAgrees(v: View, a: Added, d: AbsDepth)
    requires QueueOk(v, a.book, []) && FoldsTo(d, v, a.fills, a.dropped + BookLive(a.book))
    ensures EngineFolds(d, v, a, SubmitPending(v.env, a.book))
  {
    var r := SubmitPending(v.env, a.book);
    SubmitPendingAgrees(v, a.book, FoldFills(d, v.denv, a.fills).value, a.dropped);
    FoldsChain(d, v, a.fills, a.dropped + BookLive(a.book), r.fills, a.dropped + r.dropped + BookLive(r.book));
  }

  /** A submission the depth was shown. */
  lemma SubmissionAgrees(v: View, b: Book, t: Tracker, d: AbsDepth)
    requires Coming(v, b, t) && Agrees(d, v.denv, [t] + BookLive(b)) && NothingIgnored(d)
    ensures var a := AddOrder(v.env, b, t, PriceOf(v.denv, t.ptr)); EngineFolds(d, v, a, SubmitPending(v.env, a.book))
  {
    EmptyParts([t], BookLive(b), [], []);
    AddOrderAgrees(v, b, t, d, []);
    var a := AddOrder(v.env, b, t, PriceOf(v.denv, t.ptr));
    EmptyParts(a.dropped, BookLive(a.book), [], []);
    AddedIsQueue(v, b, t);
    CascadeAgrees(v, a, d);
  }

  lemma OneSideAgrees(b: Book, buy: bool, sb: StopBook)
    requires forall w :: StopSum(w, b.stops) == StopSum(w, sb)
    ensures SameSums(BookLive(b), StopLive(sb) + Trackers(b.Side(buy)) + Trackers(b.Side(!buy)))
  {
    forall w: Weight
      ensures Sum(w, BookLive(b)) == Sum(w, StopLive(sb) + Trackers(b.Side(buy)) + Trackers(b.Side(!buy)))
    {
      SumBookLive(w, b);
      Sum3(w, StopLive(sb), Trackers(b.Side(buy)), Trackers(b.Side(!buy)));
      Sum3(w, Trackers(sb.stopBids), Trackers(sb.stopAsks), sb.pending);
      assert StopSum(w, b.stops) == StopSum(w, sb);
    }
  }

  /** The depth ignores the fills of an order that will not rest, all of it. */
  ghost predicate Ignores(d: AbsDepth, v: View, t: Tracker, b: Book) {
    var buy := IsBuy(v.denv, t.ptr);
    && PriceOf(v.denv, t.ptr) != MARKET_ORDER_PRICE
    && Agrees(d, v.denv, BookLive(b))
    && d.Side(buy).ignoreQty == t.openQty && d.Side(!buy).ignoreQty == 0
  }

  lemma FirstMatchIgnored(v: View, b: Book, t: Tracker, d: AbsDepth)
    requires Submittable(v, b, t) && Ignores(d, v, t, b)
    ensures var buy := IsBuy(v.denv, t.ptr);
            var m := MatchOrder(v.env, t, PriceOf(v.denv, t.ptr), b.Side(!buy), b.stops);
            m.inbound.openQty == 0 ==>
                FoldsTo(d, v, m.fills, StopLive(b.stops) + Trackers(b.Side(buy)) + Trackers(m.side))
  {
    var buy, price := IsBuy(v.denv, t.ptr), PriceOf(v.denv, t.ptr);
    var opposite := b.Side(!buy);
    var others := StopLive(b.stops) + Trackers(b.Side(buy));
    OneSideAgrees(b, buy, b.stops);
    AgreesWithSame(d, v.denv, BookLive(b), others + Trackers(opposite));
    var m := MatchOrder(v.env, t, price, opposite, b.stops);
    MatchOrderRuns(v, t, price, opposite, b.stops);
    RunIgnored(v, price, Face(t, opposite, b.stops), m.fills, Face(m.inbound, m.side, m.stops), d, others, !buy);
  }

  /** An order filled in its first match leaves its own side alone. */
  lemma FilledShape(env: OrderMap, b: Book, t: Tracker, price: nat)
    ensures var buy := IsBuy(env, t.ptr);
            var m := MatchOrder(env, t, price, b.Side(!buy), b.stops);
            var a := AddOrder(env, b, t, price);
            && a.inbound == m.inbound
            && (m.inbound.openQty == 0 ==>
                 a.fills == m.fills && a.dropped == [] && a.book.Side(buy) == b.Side(buy) &&
                     a.book.Side(!buy) == m.side)
  {
  }

  lemma FilledFolds(v: View, b: Book, t: Tracker, d: AbsDepth, a: Added)
    requires Coming(v, b, t) && Ignores(d, v, t, b)
    requires a == AddOrder(v.env, b, t, PriceOf(v.denv, t.ptr)) && a.inbound.openQty == 0
    requires forall w :: StopSum(w, a.book.stops) == StopSum(w, b.stops)
    ensures a.dropped == [] && FoldsTo(d, v, a.fills, BookLive(a.book))
  {
    var buy := IsBuy(v.denv, t.ptr);
    FilledShape(v.env, b, t, PriceOf(v.denv, t.ptr));
    FirstMatchIgnored(v, b, t, d);
    OneSideAgrees(a.book, buy, b.stops);
    FoldsToSame(d, v, a.fills, StopLive(b.stops) + Trackers(a.book.Side(buy)) + Trackers(a.book.Side(!buy)),
                BookLive(a.book));
  }

  /** A submission the depth was told to ignore: it is filled in its first match. */
  lemma IgnoredSubmissionAgrees(v: View, b: Book, t: Tracker, d: AbsDepth, a: Added)
    requires Coming(v, b, t) && Ignores(d, v, t, b)
    requires a == AddOrder(v.env, b, t, PriceOf(v.denv, t.ptr)) && a.inbound.openQty == 0
    ensures EngineFolds(d, v, a, SubmitPending(v.env, a.book))
  {
    forall w: Weight
      ensures StopSum(w, a.book.stops) == StopSum(w, b.stops)
    {
      AddOrderKeepsStopSum(v, b, t, w);
    }
    FilledFolds(v, b, t, d, a);
    EmptyParts(BookLive(a.book), [], [], []);
    AddedIsQueue(v, b, t);
    CascadeAgrees(v, a, d);
  }

  // ---- From the fold to the request ----

  /** Folding all callbacks of a request over a depth shows the book afterwards. */
  ghost predicate Folded(d: AbsDepth, started: OrderMap, cbs: seq<Callback>, b: Book) {
    var r := FoldDepth(d, started, cbs);
    r.Some? && Shows(r.value, ApplyAll(started, cbs), b)
  }

  lemma DroppedUnseen(d: AbsDepth, v: View, fills: seq<Callback>, dropped: seq<Tracker>, b: Book, orders: OrderMap)
    requires FoldsTo(d, v, fills, dropped + BookLive(b)) && IocRemainders(dropped) && SameLook(orders, v.denv)
    ensures Shows(FoldFills(d, v.denv, fills).value, orders, b) <==> AllMarket(v.denv, dropped)
  {
    var d' := FoldFills(d, v.denv, fills).value;
    DroppedShownExactlyWhen(d', v.denv, dropped, BookLive(b));
    if AllMarket(v.denv, dropped) {
      ShowsLook(d', v.denv, orders, b);
    }
    if Shows(d', orders, b) {
      ShowsLook(d', orders, v.denv, b);
    }
  }

  lemma SubmissionShows(d: AbsDepth, v: View, started: OrderMap, heads: seq<Callback>, d1: AbsDepth, m: seq<Callback>,
                        a: Added, r: Submitted)
    requires FoldDepth(d, started, heads) == Some(d1) && SameLook(ApplyAll(started, heads), v.denv)
    requires EngineFolds(d1, v, a, r) && GoodTrades(v, a.fills + r.fills)
    requires Unseen(m, v.denv) && IocRemainders(a.dropped + r.dropped)
    ensures Folded(d, started, heads + a.fills + m + r.fills + [BookUpdateCb], r.book) <==>
            AllMarket(v.denv, a.dropped + r.dropped)
  {
    hide AllMarket, Shows;
    GoodTradesAreFills(v, a.fills, r.fills);
    RequestFolds(d, started, heads, d1, v.denv, a.fills, m, r.fills);
    DroppedUnseen(d1, v, a.fills + r.fills, a.dropped + r.dropped, r.book,
                  ApplyAll(started, heads + a.fills + m + r.fills + [BookUpdateCb]));
  }

  lemma CascadeShows(d: AbsDepth, v: View, started: OrderMap, heads: seq<Callback>, d1: AbsDepth, b: Book)
    requires FoldDepth(d, started, heads) == Some(d1) && SameLook(ApplyAll(started, heads), v.denv)
    requires QueueOk(v, b, []) && Shows(d1, v.denv, b)
    ensures var r := SubmitPending(v.env, b);
            Folded(d, started, heads + r.fills + [BookUpdateCb], r.book) <==> AllMarket(v.denv, r.dropped)
  {
    hide AllMarket, Folded;
    var r := SubmitPending(v.env, b);
    EmptyParts(BookLive(b), [], [], []);
    SubmitPendingAgrees(v, b, d1, []);
    SubmitPendingIsGood(v, b);
    SubmitPendingDropsIoc(v.env, b);
    EmptyParts(r.dropped, [], [], []);
    EmptyParts(r.fills, [], [], []);
    var a := Added(b, Tracker(0, 0, false, false), [], false, []);
    SubmissionShows(d, v, started, heads, d1, [], a, r);
    EmptyParts(heads, [], r.fills, [BookUpdateCb]);
    EmptyParts(heads, r.fills, [BookUpdateCb], []);
  }

  // ---- Adding an order ----

  /** The depth once it has been told that a new order was accepted, with `q` filled at once. */
  function AfterAccept(d: AbsDepth, order: Order, q: nat): AbsDepth {
    var side := d.Side(order.isBuy);
    if order.price == MARKET_ORDER_PRICE then d
    else if q == order.qty then d.With(order.isBuy, side.(ignoreQty := q))
    else d.With(order.isBuy, side.AddOrder(order.price, order.qty))
  }

  lemma AcceptFolds(d: AbsDepth, orders: OrderMap, id: OrderId, order: Order, q: nat)
    requires NothingIgnored(d)
    ensures var started := orders[id := order];
            && FoldDepth(d, started, [AcceptCb(id, q)]) == Some(AfterAccept(d, order, q))
            && SameLook(ApplyAll(started, [AcceptCb(id, q)]), started)
  {
    var started, cb := orders[id := order], AcceptCb(id, q);
    assert FoldDepth(d, started, [cb])
           == match OnCallback(d, started, cb) case None => None case Some(d') => FoldDepth(d',
                       ApplyCallback(started, cb), []);
    assert ApplyAll(started, [cb]) == ApplyCallback(started, cb);
  }

  /** What was shown is still shown next to a new order. */
  lemma NewOrderUnseen(s: Sys, id: OrderId, order: Order, d: AbsDepth)
    requires Inv(s) && id !in s.orders && Shows(d, s.orders, s.book)
    ensures Shows(d, s.orders[id := order], s.book)
  {
    forall x | BookSum(LiveOf(x), s.book) > 0
      ensures PriceOf(s.orders[id := order], x) == PriceOf(s.orders, x)
      ensures IsBuy(s.orders[id := order], x) == IsBuy(s.orders, x)
    {
      LiveIsKnown(s.orders, s.book, s.retired, x);
    }
    ShowsLook(d, s.orders, s.orders[id := order], s.book);
  }

  lemma AcceptedShown(orders: OrderMap, b: Book, id: OrderId, order: Order, t: Tracker, q: nat, d: AbsDepth)
    requires Shows(d, orders, b) && id in orders && orders[id] == order
    requires t.ptr == id && t.openQty == order.qty > 0 && (q != order.qty || order.price == MARKET_ORDER_PRICE)
    ensures Agrees(AfterAccept(d, order, q), orders, [t] + BookLive(b)) && NothingIgnored(AfterAccept(d, order, q))
  {
    if order.price == MARKET_ORDER_PRICE {
      MarketUnseen(d, orders, [t], BookLive(b));
    } else {
      ShownOrderAgrees(d, orders, t, BookLive(b));
    }
  }

  lemma AcceptedIgnored(orders: OrderMap, b: Book, id: OrderId, order: Order, t: Tracker, d: AbsDepth, v: View)
    requires Shows(d, orders, b) && id in orders && orders[id] == order && v.env == v.denv == orders
    requires t.ptr == id && t.openQty == order.qty && order.price != MARKET_ORDER_PRICE
    ensures Ignores(AfterAccept(d, order, order.qty), v, t, b)
  {
    var d' := AfterAccept(d, order, order.qty);
    forall buy, price | price != 0
      ensures d'.Side(buy).At(price) == d.Side(buy).At(price)
    {
    }
  }

  lemma HeldShown(orders: OrderMap, b: Book, t: Tracker, d: AbsDepth)
    requires t.ptr in orders && Agrees(d, orders, [t] + BookLive(b)) && NothingIgnored(d)
    ensures Shows(d, orders, HoldStop(orders, b, t))
  {
    forall w: Weight
      ensures Sum(w, [t] + BookLive(b)) == Sum(w, BookLive(HoldStop(orders, b, t)))
    {
      HoldStopCounts(orders, b, t, w);
      SumBookLive(w, b);
      SumBookLive(w, HoldStop(orders, b, t));
      SumAppend(w, [t], BookLive(b));
      SumOne(w, t);
    }
    AgreesWithSame(d, orders, [t] + BookLive(b), BookLive(HoldStop(orders, b, t)));
  }

  /** A stop order that is held back: it is shown, and what the cascade then does is followed
      exactly when it drops no limit order. */
  lemma HeldShows(s: Sys, id: OrderId, order: Order, t: Tracker, d: AbsDepth)
    requires Fresh(s, id, order, t) && Shows(d, s.orders, s.book)
    ensures var orders := s.orders[id := order];
            var r := SubmitPending(orders, HoldStop(orders, s.book, t));
            Folded(d, orders, Finish(r, [AcceptCb(id, 0)], false, []).cbs, r.book) <==> AllMarket(orders, r.dropped)
  {
    hide AllMarket, Folded;
    var orders := s.orders[id := order];
    var v, b := Seen(orders, s.book, [t]), HoldStop(orders, s.book, t);
    HeldStopInBook(s, id, order, t, b);
    PlacedIsQueue(v, s.orders[id := order.Accept()], b, s.retired);
    NewOrderUnseen(s, id, order, d);
    AcceptFolds(d, s.orders, id, order, 0);
    AcceptedShown(orders, s.book, id, order, t, 0, d);
    HeldShown(orders, s.book, t, AfterAccept(d, order, 0));
    CascadeShows(d, v, orders, [AcceptCb(id, 0)], AfterAccept(d, order, 0), b);
  }

  /** The first depth and the engine's part, shown or ignored alike. */
  lemma AcceptedFolds(s: Sys, id: OrderId, order: Order, t: Tracker, d: AbsDepth, a: Added)
    requires Fresh(s, id, order, t) && Shows(d, s.orders, s.book)
    requires a == AddOrder(s.orders[id := order], s.book, t, order.price) && a.inbound.openQty <= order.qty
    ensures EngineFolds(AfterAccept(d, order, order.qty - a.inbound.openQty), Seen(s.orders[id := order], s.book, [t]),
                        a, SubmitPending(s.orders[id := order], a.book))
  {
    hide Matching.AddOrder, Matching.SubmitPending, EngineFolds, Agrees, Inv, Shows, Placed, BookOk;
    var orders := s.orders[id := order];
    var v := Seen(orders, s.book, [t]);
    NewOrderComing(s, id, order, t);
    NewOrderUnseen(s, id, order, d);
    var q := order.qty - a.inbound.openQty;
    if q == order.qty && order.price != MARKET_ORDER_PRICE {
      AcceptedIgnored(orders, s.book, id, order, t, d, v);
      IgnoredSubmissionAgrees(v, s.book, t, AfterAccept(d, order, q), a);
    } else {
      AcceptedShown(orders, s.book, id, order, t, q, d);
      SubmissionAgrees(v, s.book, t, AfterAccept(d, order, q));
    }
  }

  /** A dropped remainder is the only thing a submission cancels. */
  lemma RestUnseen(v: View, b: Book, t: Tracker, a: Added, r: Submitted)
    requires Submission(v, b, t, a, r) && AllMarket(v.denv, a.dropped)
    ensures Unseen(CancelRest(a.inbound), v.denv)
  {
    if CancelRest(a.inbound) != [] {
      assert a.dropped[0] == a.inbound;
    }
  }

  lemma AllMarketParts(env: OrderMap, a: seq<Tracker>, b: seq<Tracker>)
    ensures AllMarket(env, a + b) <==> AllMarket(env, a) && AllMarket(env, b)
  {
    assert forall k :: 0 <= k < |a| ==> (a + b)[k] == a[k];
    assert forall k :: 0 <= k < |b| ==> (a + b)[|a| + k] == b[k];
  }

  lemma AddedFolded(s: Sys, id: OrderId, order: Order, t: Tracker, d: AbsDepth, a: Added, r: Submitted)
    requires NothingIgnored(d) && t.ptr == id && t.openQty == order.qty && IocRemainders(a.dropped + r.dropped)
    requires var v := Seen(s.orders[id := order], s.book, [t]);
             && Submission(v, s.book, t, a, r) && AllMarket(v.denv, a.dropped)
             && EngineFolds(AfterAccept(d, order, order.qty - a.inbound.openQty), v, a, r)
    ensures Folded(d, s.orders[id := order], AddOutcome(order.qty, a, r).cbs, r.book) <==>
            AllMarket(s.orders[id := order], r.dropped)
  {
    hide EngineFolds, AllMarket, Agrees, Folded;
    var orders := s.orders[id := order];
    var v := Seen(orders, s.book, [t]);
    RestUnseen(v, s.book, t, a, r);
    AllMarketParts(orders, a.dropped, r.dropped);
    var q := order.qty - a.inbound.openQty;
    AcceptFolds(d, s.orders, id, order, q);
    SubmissionShows(d, v, orders, [AcceptCb(id, q)], AfterAccept(d, order, q), CancelRest(a.inbound), a, r);
  }

  /** An order that is not held back, and of which no limit remainder is dropped: the depth follows
      it, rested or filled at once, exactly when the cascade after it drops no limit order. */
  lemma AddedShows(s: Sys, id: OrderId, order: Order, t: Tracker, d: AbsDepth)
    requires Fresh(s, id, order, t) && Shows(d, s.orders, s.book)
    requires AllMarket(s.orders[id := order], AddOrder(s.orders[id := order], s.book, t, order.price).dropped)
    ensures var orders := s.orders[id := order];
            var a := AddOrder(orders, s.book, t, order.price);
            var r := SubmitPending(orders, a.book);
            Folded(d, orders, AddOutcome(order.qty, a, r).cbs, r.book) <==> AllMarket(orders, r.dropped)
  {
    hide AllMarket, Folded, EngineFolds, IocRemainders, Matching.AddOrder, Matching.SubmitPending, Inv, Agrees;
    var orders := s.orders[id := order];
    var a := AddOrder(orders, s.book, t, order.price);
    NewOrderComing(s, id, order, t);
    IsSubmission(Seen(orders, s.book, [t]), s.book, t);
    AcceptedFolds(s, id, order, t, d, a);
    AddedDropsIoc(orders, s.book, t, order.price);
    SubmitPendingDropsIoc(orders, a.book);
    IocParts(a.dropped, SubmitPending(orders, a.book).dropped);
    AddedFolded(s, id, order, t, d, a, SubmitPending(orders, a.book));
  }
}
