/** Cancellations and replacements as the depth sees them, and when it sees them right. */
module DepthReplace {
  import opened Prices
  import opened Orders
  import opened Books
  import opened Matching
  import opened Accounting
  import opened BookRuns
  import opened Cascade
  import opened Trades
  import opened Options
  import opened DepthSpec
  import opened DepthRuns
  import opened DepthCascade
  import opened Requests
  import opened EngineSteps
  import opened System
  import opened RequestRuns
  import opened RequestInvariants
  import opened DepthRequests

  // ---- One order next to the others ----

  /** The depth shows the others, and one order more with this quantity at this price. */
  ghost predicate OneMore(d: AbsDepth, env: OrderMap, others: seq<Tracker>, buy: bool, price: nat, qty: nat) {
    && d.bid.WellFormed() && d.ask.WellFormed() && NothingIgnored(d)
    && forall b, p :: p != 0 ==>
         var l := LevelOf(env, others, b, p);
         d.Side(b).At(p) == if b == buy && p == price then Level(l.count + 1, l.qty + qty) else l
  }

  lemma OneMoreIsAgreement(d: AbsDepth, env: OrderMap, t: Tracker, others: seq<Tracker>)
    requires t.openQty > 0
    ensures Agrees(d, env, [t] + others) && NothingIgnored(d) <==>
            OneMore(d, env, others, IsBuy(env, t.ptr), PriceOf(env, t.ptr), t.openQty)
  {
    forall b, p | p != 0
      ensures var l := LevelOf(env, others, b, p);
              LevelOf(env, [t] + others, b, p)
              == if b == IsBuy(env, t.ptr) && p == PriceOf(env, t.ptr) then Level(l.count + 1, l.qty + t.openQty) else l
    {
      LevelOfAppend(env, [t], others, b, p);
      SumOne(CountAt(env, b, p), t);
      SumOne(QtyAt(env, b, p), t);
    }
  }

  /** Closing it takes it away again. */
  lemma CloseOneMore(d: AbsDepth, env: OrderMap, others: seq<Tracker>, buy: bool, price: nat, qty: nat)
    requires OneMore(d, env, others, buy, price, qty) && price != 0
    ensures var r := d.Side(buy).CloseOrder(price, qty);
            r.Some? && Agrees(d.With(buy, r.value), env, others) && NothingIgnored(d.With(buy, r.value))
  {
    if LevelOf(env, others, buy, price).count == 0 {
      EmptyLevelHasNoQty(env, buy, price, others);
    }
    assert d.Side(buy).At(price)
           == Level(LevelOf(env, others, buy, price).count + 1, LevelOf(env, others, buy, price).qty + qty);
    var d' := d.With(buy, d.Side(buy).CloseOrder(price, qty).value);
    forall b, p | p != 0
      ensures d'.Side(b).At(p) == LevelOf(env, others, b, p)
    {
      var l := LevelOf(env, others, b, p);
      assert d.Side(b).At(p) == if b == buy && p == price then Level(l.count + 1, l.qty + qty) else l;
    }
  }

  lemma ChangeOneMore(d: AbsDepth, env: OrderMap, others: seq<Tracker>, buy: bool, price: nat, qty: nat, delta: int)
    requires OneMore(d, env, others, buy, price, qty) && price != 0 && qty + delta >= 0
    ensures var r := d.Side(buy).ChangeQty(price, delta);
            r.Some? && OneMore(d.With(buy, r.value), env, others, buy, price, qty + delta)
  {
    assert d.Side(buy).At(price)
           == Level(LevelOf(env, others, buy, price).count + 1, LevelOf(env, others, buy, price).qty + qty);
    var d' := d.With(buy, d.Side(buy).ChangeQty(price, delta).value);
    forall b, p | p != 0
      ensures var l := LevelOf(env, others, b, p);
              d'.Side(b).At(p) == if b == buy && p == price then Level(l.count + 1, l.qty + (qty + delta)) else l
    {
      var l := LevelOf(env, others, b, p);
      assert d.Side(b).At(p) == if b == buy && p == price then Level(l.count + 1, l.qty + qty) else l;
    }
  }

  /** Moving it to another price, reporting `filled` too much on both sides of the move: the
      new level shows exactly that much too much. */
  lemma MoveOneMore(d: AbsDepth, env: OrderMap, others: seq<Tracker>, buy: bool, price: nat, newPrice: nat, qty: nat,
                    qty': nat, filled: nat)
    requires OneMore(d, env, others, buy, price, qty) && price != 0 && newPrice != 0 && newPrice != price
    ensures var r := d.Side(buy).ReplaceOrder(price, newPrice, qty + filled, qty' + filled);
            && (filled == 0 ==> r.Some? && OneMore(d.With(buy, r.value), env, others, buy, newPrice, qty'))
            && (r.Some? ==> r.value.At(newPrice).qty == LevelOf(env, others, buy, newPrice).qty + qty' + filled)
  {
    hide Agrees, OneMore, LevelOf;
    OneMoreAt(d, env, others, buy, price, newPrice, qty);
    if filled == 0 {
      hide DepthSide.ReplaceOrder;
      MovedUnfilled(d, env, others, buy, price, newPrice, qty, qty');
    }
    MovedLevel(d.Side(buy), price, newPrice, qty + filled, qty' + filled);
  }

  lemma OneMoreAt(d: AbsDepth, env: OrderMap, others: seq<Tracker>, buy: bool, price: nat, newPrice: nat, qty: nat)
    requires OneMore(d, env, others, buy, price, qty) && price != 0 && newPrice != 0 && newPrice != price
    ensures var l := LevelOf(env, others, buy, price); d.Side(buy).At(price) == Level(l.count + 1, l.qty + qty)
    ensures d.Side(buy).At(newPrice) == LevelOf(env, others, buy, newPrice)
  {
  }

  lemma MovedLevel(s: DepthSide, price: nat, newPrice: nat, qty: nat, qty': nat)
    requires newPrice != price
    ensures var r := s.ReplaceOrder(price, newPrice, qty, qty');
            r.Some? ==> r.value.At(newPrice).qty == s.At(newPrice).qty + qty'
  {
  }

  lemma MovedUnfilled(d: AbsDepth, env: OrderMap, others: seq<Tracker>, buy: bool, price: nat, newPrice: nat, qty: nat,
                      qty': nat)
    requires OneMore(d, env, others, buy, price, qty) && price != 0 && newPrice != 0 && newPrice != price
    ensures var r := d.Side(buy).AddOrder(newPrice, qty').CloseOrder(price, qty);
            r.Some? && OneMore(d.With(buy, r.value), env, others, buy, newPrice, qty')
  {
    hide Sum;
    var l := LevelOf(env, others, buy, price);
    assert d.Side(buy).At(price) == Level(l.count + 1, l.qty + qty);
    if l.count == 0 {
      EmptyLevelHasNoQty(env, buy, price, others);
    }
    var d' := d.With(buy, d.Side(buy).AddOrder(newPrice, qty').CloseOrder(price, qty).value);
    forall b, p | p != 0
      ensures var n := LevelOf(env, others, b, p);
              d'.Side(b).At(p) == if b == buy && p == newPrice then Level(n.count + 1, n.qty + qty') else n
    {
      var n := LevelOf(env, others, b, p);
      assert d.Side(b).At(p) == if b == buy && p == price then Level(n.count + 1, n.qty + qty) else n;
    }
  }

  // ---- The order a request takes out ----

  lemma TakenShown(s: Sys, buy: bool, k: nat, t: Tracker, b: Book, d: AbsDepth)
    requires TakenOut(s, buy, k, t, b) && Shows(d, s.orders, s.book)
    ensures Agrees(d, s.orders, [t] + BookLive(b))
  {
    forall w: Weight
      ensures Sum(w, BookLive(s.book)) == Sum(w, [t] + BookLive(b))
    {
      WithoutCounts(s.book, buy, k, w);
      SumBookLive(w, s.book);
      SumBookLive(w, b);
      SumAppend(w, [t], BookLive(b));
      SumOne(w, t);
    }
    AgreesWithSame(d, s.orders, BookLive(s.book), [t] + BookLive(b));
  }

  lemma TwoCallbacks(d: AbsDepth, orders: OrderMap, a: Callback, b: Callback)
    ensures FoldDepth(d, orders, [a]) == OnCallback(d, orders, a)
    ensures FoldDepth(d, orders, [a, b])
            == match OnCallback(d, orders, a) case None => None case Some(d') => OnCallback(d',
                                                                                            ApplyCallback(orders, a), b)
    ensures ApplyAll(orders, [a]) == ApplyCallback(orders, a)
    ensures ApplyAll(orders, [a, b]) == ApplyCallback(ApplyCallback(orders, a), b)
  {
    assert [a][1..] == [] && [a, b][1..] == [b] && [b][1..] == [];
    var o := ApplyCallback(orders, a);
    assert FoldDepth(d, orders, [a])
           == match OnCallback(d, orders, a) case None => None case Some(d') => FoldDepth(d', o, []);
    assert FoldDepth(d, orders, [a, b])
           == match OnCallback(d, orders, a) case None => None case Some(d') => FoldDepth(d', o, [b]);
    if OnCallback(d, orders, a).Some? {
      var d' := OnCallback(d, orders, a).value;
      assert FoldDepth(d', o, [b])
             == match OnCallback(d', o, b) case None => None case Some(d'') => FoldDepth(d'', ApplyCallback(o, b), []);
    }
    assert ApplyAll(o, [b]) == ApplyCallback(o, b);
  }

  // ---- Cancel ----

  lemma CancelFolds(env: OrderMap, t: Tracker, others: seq<Tracker>, dep: AbsDepth)
    requires t.ptr in env && t.openQty > 0 && Agrees(dep, env, [t] + others) && NothingIgnored(dep)
    ensures var r := OnCallback(dep, env, CancelCb(t.ptr, t.openQty));
            r.Some? && Agrees(r.value, env, others) && NothingIgnored(r.value)
  {
    OneMoreIsAgreement(dep, env, t, others);
    if env[t.ptr].price == MARKET_ORDER_PRICE {
      MarketUnseen(dep, env, [t], others);
    } else {
      CloseOneMore(dep, env, others, IsBuy(env, t.ptr), env[t.ptr].price, t.openQty);
    }
  }

  lemma CancelLooksSame(orders: OrderMap, id: OrderId, q: nat)
    ensures SameLook(orders, ApplyCallback(orders, CancelCb(id, q)))
  {
  }

  lemma CancelFolded(orders: OrderMap, t: Tracker, b: Book, d: AbsDepth)
    requires t.ptr in orders && t.openQty > 0 && Agrees(d, orders, [t] + BookLive(b)) && NothingIgnored(d)
    ensures Folded(d, orders, [CancelCb(t.ptr, t.openQty), BookUpdateCb], b)
  {
    var cb := CancelCb(t.ptr, t.openQty);
    CancelFolds(orders, t, BookLive(b), d);
    CancelLooksSame(orders, t.ptr, t.openQty);
    TwoCallbacks(d, orders, cb, BookUpdateCb);
    ShowsLook(OnCallback(d, orders, cb).value, orders, ApplyCallback(orders, cb), b);
  }

  lemma CancelledShows(s: Sys, buy: bool, k: nat, t: Tracker, b: Book, d: AbsDepth)
    requires TakenOut(s, buy, k, t, b) && Shows(d, s.orders, s.book)
    ensures Folded(d, s.orders, [CancelCb(t.ptr, t.openQty), BookUpdateCb], b)
  {
    TakenIsPlaced(s, buy, k, t, b);
    TakenShown(s, buy, k, t, b, d);
    CancelFolded(s.orders, t, b, d);
  }

  // ---- Replace ----

  /** The depth follows this replacement: the price stays, or nothing has been filled yet;
      a market order must not change at all. */
  predicate Followed(o: Order, d: int, price: nat) {
    if o.price == MARKET_ORDER_PRICE then price == MARKET_ORDER_PRICE && d == 0
    else price == o.price || o.filled == 0
  }

  lemma ElsewhereLooksSame(orders: OrderMap, id: OrderId, o: Order, b: Book)
    requires id in orders && BookSum(LiveOf(id), b) == 0
    ensures LookAlike(orders, orders[id := o], BookLive(b))
  {
    forall j | 0 <= j < |BookLive(b)| && BookLive(b)[j].openQty > 0
      ensures BookLive(b)[j].ptr != id
    {
      BookLiveIsLive(b, j);
    }
  }

  /** The rest of the book, read against the orders a replacement changed. */
  lemma ReplacedLook(s: Sys, buy: bool, k: nat, t: Tracker, b: Book, d: int, price: nat, orders: OrderMap, v: View)
    requires Replaced(s, buy, k, t, b, d, price, orders, v)
    ensures LookAlike(s.orders, orders, BookLive(b))
    ensures IsBuy(orders, t.ptr) == IsBuy(s.orders, t.ptr) && PriceOf(orders, t.ptr) == price
  {
    ReplacedOrder(s, buy, k, t, b, d, price, orders, v);
    TakenIsPlaced(s, buy, k, t, b);
    ElsewhereLooksSame(s.orders, t.ptr, orders[t.ptr], b);
  }

  lemma OneMoreLook(d: AbsDepth, a: OrderMap, b: OrderMap, others: seq<Tracker>, buy: bool, price: nat, qty: nat)
    requires OneMore(d, a, others, buy, price, qty) && LookAlike(a, b, others)
    ensures OneMore(d, b, others, buy, price, qty)
  {
    forall s, p
      ensures LevelOf(a, others, s, p) == LevelOf(b, others, s, p)
    {
      LevelOfLook(a, b, others, s, p);
    }
  }

  /** What the depth should show of an order replaced by `d` at a price. */
  ghost predicate ShowsReplaced(r: Option<AbsDepth>, env: OrderMap, others: seq<Tracker>, buy: bool, price: nat,
                                qty: nat) {
    r.Some? && if price == MARKET_ORDER_PRICE then Agrees(r.value, env, others) && NothingIgnored(r.value)
               else OneMore(r.value, env, others, buy, price, qty)
  }

  lemma ReplaceLookup(dep: AbsDepth, env: OrderMap, id: OrderId, open: nat, d: int, price: nat)
    requires id in env && env[id].qty + d >= 0
    ensures OnCallback(dep, env, ReplaceCb(id, open, d, price))
         == dep.WithOption(env[id].isBuy, dep.Side(env[id].isBuy).ReplaceOrder(env[id].price, price, env[id].qty,
                                                                               env[id].qty + d))
  {
  }

  /** Price zero has no level, so a market order cannot be moved or resized. */
  lemma MarketReplaced(side: DepthSide, price: nat, qty: nat, d: int)
    requires side.WellFormed() && qty + d >= 0
    ensures side.ReplaceOrder(MARKET_ORDER_PRICE, price, qty, qty + d)
         == if price == MARKET_ORDER_PRICE && d == 0 then Some(side) else None
  {
    assert price != MARKET_ORDER_PRICE ==> MARKET_ORDER_PRICE !in side.AddOrder(price, qty + d).levels;
  }

  lemma MarketFollowed(env: OrderMap, t: Tracker, others: seq<Tracker>, dep: AbsDepth, d: int, price: nat)
    requires t.ptr in env && env[t.ptr].qty + d >= 0 && t.openQty + d >= 0 && env[t.ptr].price == MARKET_ORDER_PRICE
    requires Agrees(dep, env, [t] + others) && NothingIgnored(dep)
    ensures ShowsReplaced(OnCallback(dep, env, ReplaceCb(t.ptr, t.openQty, d, price)), env, others, IsBuy(env, t.ptr),
                          price, t.openQty + d)
       <==> price == MARKET_ORDER_PRICE && d == 0
  {
    var o := env[t.ptr];
    ReplaceLookup(dep, env, t.ptr, t.openQty, d, price);
    MarketUnseen(dep, env, [t], others);
    MarketReplaced(dep.Side(o.isBuy), price, o.qty, d);
  }

  lemma MoveFollowed(env: OrderMap, others: seq<Tracker>, dep: AbsDepth, buy: bool, p: nat, qty: nat, d: int,
                     price: nat, filled: nat)
    requires qty + d >= 0 && p != MARKET_ORDER_PRICE && price != MARKET_ORDER_PRICE && price != p
    requires OneMore(dep, env, others, buy, p, qty)
    ensures ShowsReplaced(dep.WithOption(buy, dep.Side(buy).ReplaceOrder(p, price, qty + filled, qty + d + filled)),
                          env, others, buy, price, qty + d)
       <==> filled == 0
  {
    MoveOneMore(dep, env, others, buy, p, price, qty, qty + d, filled);
    var r := dep.Side(buy).ReplaceOrder(p, price, qty + filled, qty + d + filled);
    if r.Some? {
      assert dep.With(buy, r.value).Side(buy) == r.value;
    }
  }

  lemma ResizeFollowed(env: OrderMap, others: seq<Tracker>, dep: AbsDepth, buy: bool, p: nat, qty: nat, d: int,
                       filled: nat)
    requires qty + d >= 0 && p != MARKET_ORDER_PRICE && OneMore(dep, env, others, buy, p, qty)
    ensures ShowsReplaced(dep.WithOption(buy, dep.Side(buy).ReplaceOrder(p, p, qty + filled, qty + d + filled)), env,
                          others, buy, p, qty + d)
  {
    ChangeOneMore(dep, env, others, buy, p, qty, d);
  }

  lemma LimitReplaceFollowed(r: Option<AbsDepth>, env: OrderMap, others: seq<Tracker>, dep: AbsDepth, buy: bool, p: nat,
                             qty: nat, d: int, price: nat, filled: nat)
    requires qty + d >= 0 && p != MARKET_ORDER_PRICE && price != MARKET_ORDER_PRICE
    requires OneMore(dep, env, others, buy, p, qty)
    requires r == dep.WithOption(buy, dep.Side(buy).ReplaceOrder(p, price, qty + filled, qty + d + filled))
    ensures ShowsReplaced(r, env, others, buy, price, qty + d) <==> price == p || filled == 0
  {
    if price == p {
      ResizeFollowed(env, others, dep, buy, p, qty, d, filled);
    } else {
      MoveFollowed(env, others, dep, buy, p, qty, d, price, filled);
    }
  }

  lemma LimitFollowed(env: OrderMap, t: Tracker, others: seq<Tracker>, dep: AbsDepth, d: int, price: nat)
    requires t.ptr in env && env[t.ptr].qty == t.openQty + env[t.ptr].filled && t.openQty + d >= 0
    requires env[t.ptr].price != MARKET_ORDER_PRICE && price != MARKET_ORDER_PRICE
    requires OneMore(dep, env, others, IsBuy(env, t.ptr), PriceOf(env, t.ptr), t.openQty)
    ensures ShowsReplaced(OnCallback(dep, env, ReplaceCb(t.ptr, t.openQty, d, price)), env, others, IsBuy(env, t.ptr),
                          price, t.openQty + d)
       <==> price == env[t.ptr].price || env[t.ptr].filled == 0
  {
    var o := env[t.ptr];
    ReplaceLookup(dep, env, t.ptr, t.openQty, d, price);
    LimitReplaceFollowed(OnCallback(dep, env, ReplaceCb(t.ptr, t.openQty, d, price)), env, others, dep, o.isBuy,
                         o.price, t.openQty, d, price, o.filled);
  }

  /** The depth after a replace callback is right exactly when the depth can follow it. */
  lemma ReplaceFollowedExactlyWhen(env: OrderMap, t: Tracker, others: seq<Tracker>, dep: AbsDepth, d: int, price: nat)
    requires t.ptr in env && t.openQty > 0 && env[t.ptr].qty == t.openQty + env[t.ptr].filled && t.openQty + d >= 0
    requires env[t.ptr].price != MARKET_ORDER_PRICE ==> price != MARKET_ORDER_PRICE
    requires Agrees(dep, env, [t] + others) && NothingIgnored(dep)
    ensures ShowsReplaced(OnCallback(dep, env, ReplaceCb(t.ptr, t.openQty, d, price)), env, others, IsBuy(env, t.ptr),
                          price, t.openQty + d)
       <==> Followed(env[t.ptr], d, price)
  {
    if env[t.ptr].price == MARKET_ORDER_PRICE {
      MarketFollowed(env, t, others, dep, d, price);
    } else {
      OneMoreIsAgreement(dep, env, t, others);
      LimitFollowed(env, t, others, dep, d, price);
    }
  }

  /** A bid for 10 at 100 of which 4 are filled moves to 101: the depth takes its whole size along,
      and shows 10 where 6 are open. */
  lemma FilledMoveOverstatesLevel()
    ensures var env: OrderMap := map[1 := Order(true, 100, 10, 0, 4, 400, Accepted)];
            var dep := AbsDepth(DepthSide(map[100 := Level(1, 6)], 0), DepthSide(map[], 0));
            && Agrees(dep, env, [Tracker(1, 6, false, false)])
            && OnCallback(dep, env, ReplaceCb(1, 6, 0, 101))
               == Some(AbsDepth(DepthSide(map[101 := Level(1, 10)], 0), DepthSide(map[], 0)))
            && !ShowsReplaced(OnCallback(dep, env, ReplaceCb(1, 6, 0, 101)), env, [], true, 101, 6)
  {
    hide OnCallback, Agrees, ShowsReplaced;
    var env: OrderMap := map[1 := Order(true, 100, 10, 0, 4, 400, Accepted)];
    var dep := AbsDepth(DepthSide(map[100 := Level(1, 6)], 0), DepthSide(map[], 0));
    var t := Tracker(1, 6, false, false);
    OneLevelAgrees(env, dep, t);
    FilledMove(env, dep);
    assert [t] + [] == [t];
    ReplaceFollowedExactlyWhen(env, t, [], dep, 0, 101);
  }

  lemma OneLevelAgrees(env: OrderMap, dep: AbsDepth, t: Tracker)
    requires env == map[1 := Order(true, 100, 10, 0, 4, 400, Accepted)] && t == Tracker(1, 6, false, false)
    requires dep == AbsDepth(DepthSide(map[100 := Level(1, 6)], 0), DepthSide(map[], 0))
    ensures Agrees(dep, env, [t]) && NothingIgnored(dep)
  {
    forall buy, price | price != 0
      ensures dep.Side(buy).At(price) == LevelOf(env, [t], buy, price)
    {
      SumOne(CountAt(env, buy, price), t);
      SumOne(QtyAt(env, buy, price), t);
    }
  }

  lemma FilledMove(env: OrderMap, dep: AbsDepth)
    requires env == map[1 := Order(true, 100, 10, 0, 4, 400, Accepted)]
    requires dep == AbsDepth(DepthSide(map[100 := Level(1, 6)], 0), DepthSide(map[], 0))
    ensures OnCallback(dep, env, ReplaceCb(1, 6, 0, 101))
         == Some(AbsDepth(DepthSide(map[101 := Level(1, 10)], 0), DepthSide(map[], 0)))
  {
    var side := dep.bid.AddOrder(101, 10);
    assert side.levels == map[100 := Level(1, 6), 101 := Level(1, 10)];
    assert side.levels - {100} == map[101 := Level(1, 10)];
  }

  // ---- The replace request ----

  lemma HeadFolds(s: Sys, buy: bool, k: nat, t: Tracker, b: Book, d: int, price: nat, orders: OrderMap, v: View,
                  dep: AbsDepth)
    requires Replaced(s, buy, k, t, b, d, price, orders, v) && Shows(dep, s.orders, s.book)
    requires t.ptr in s.orders && Followed(s.orders[t.ptr], d, price)
    ensures ShowsReplaced(OnCallback(dep, s.orders, ReplaceCb(t.ptr, t.openQty, d, price)), s.orders, BookLive(b),
                          IsBuy(s.orders, t.ptr), price, t.openQty + d)
    ensures ApplyAll(s.orders, [ReplaceCb(t.ptr, t.openQty, d, price)]) == orders
  {
    var head := ReplaceCb(t.ptr, t.openQty, d, price);
    TakenIsPlaced(s, buy, k, t, b);
    TakenIsMirrored(s, buy, k, t, b);
    TakenShown(s, buy, k, t, b, dep);
    ReplaceFollowedExactlyWhen(s.orders, t, BookLive(b), dep, d, price);
    TwoCallbacks(dep, s.orders, head, head);
  }

  /** The order goes in again: the depth shows it as it will be submitted. */
  lemma ResubmittedShown(env: OrderMap, orders: OrderMap, t': Tracker, others: seq<Tracker>, dep: AbsDepth, price: nat)
    requires ShowsReplaced(Some(dep), env, others, IsBuy(orders, t'.ptr), price, t'.openQty) && t'.openQty > 0
    requires LookAlike(env, orders, others) && PriceOf(orders, t'.ptr) == price
    ensures Agrees(dep, orders, [t'] + others) && NothingIgnored(dep)
  {
    if price == MARKET_ORDER_PRICE {
      AgreesLook(dep, env, orders, others);
      MarketUnseen(dep, orders, [t'], others);
    } else {
      OneMoreLook(dep, env, orders, others, IsBuy(orders, t'.ptr), price, t'.openQty);
      OneMoreIsAgreement(dep, orders, t', others);
    }
  }

  lemma ResubmittingShows(s: Sys, buy: bool, k: nat, t: Tracker, b: Book, d: int, price: nat, orders: OrderMap, v: View,
                          dep: AbsDepth)
    requires Replaced(s, buy, k, t, b, d, price, orders, v) && t.openQty + d > 0 && Shows(dep, s.orders, s.book)
    requires t.ptr in s.orders && Followed(s.orders[t.ptr], d, price)
    ensures var a := AddOrder(s.orders, b, t.(openQty := t.openQty + d), price);
            var r := SubmitPending(s.orders, a.book);
            Folded(dep, s.orders, Finish(r, [ReplaceCb(t.ptr, t.openQty, d, price)] + a.fills, a.matched,
                                         a.dropped).cbs, r.book)
            <==> AllMarket(orders, a.dropped + r.dropped)
  {
    hide AllMarket, Folded, EngineFolds, IocRemainders, Matching.AddOrder, Matching.SubmitPending, Inv, Coming, Agrees;
    var head := ReplaceCb(t.ptr, t.openQty, d, price);
    var t' := t.(openQty := t.openQty + d);
    var a := AddOrder(s.orders, b, t', price);
    var r := SubmitPending(s.orders, a.book);
    HeadFolds(s, buy, k, t, b, d, price, orders, v, dep);
    var d1 := OnCallback(dep, s.orders, head).value;
    ReplacedLook(s, buy, k, t, b, d, price, orders, v);
    ResubmittedShown(s.orders, orders, t', BookLive(b), d1, price);
    ResubmittedComing(s, buy, k, t, b, d, price, orders, v);
    SubmissionAgrees(v, b, t', d1);
    IsSubmission(v, b, t');
    AddedDropsIoc(s.orders, b, t', price);
    SubmitPendingDropsIoc(s.orders, a.book);
    IocParts(a.dropped, r.dropped);
    ResubmittedFolded(s.orders, orders, v, dep, head, d1, a, r);
  }

  lemma ResubmittedFolded(started: OrderMap, orders: OrderMap, v: View, dep: AbsDepth, head: Callback, d1: AbsDepth,
                          a: Added, r: Submitted)
    requires OnCallback(dep, started, head) == Some(d1) && ApplyAll(started, [head]) == orders == v.denv
    requires EngineFolds(d1, v, a, r) && GoodTrades(v, a.fills + r.fills) && IocRemainders(a.dropped + r.dropped)
    ensures Folded(dep, started, Finish(r, [head] + a.fills, a.matched, a.dropped).cbs, r.book)
       <==> AllMarket(orders, a.dropped + r.dropped)
  {
    hide AllMarket, Folded;
    TwoCallbacks(dep, started, head, head);
    SubmissionShows(dep, v, started, [head], d1, [], a, r);
    EmptyParts([head] + a.fills, [], [], []);
  }

  /** The order is emptied: the cancellation that follows closes it with nothing left. */
  lemma EmptiedShown(env: OrderMap, orders: OrderMap, id: OrderId, b: Book, dep: AbsDepth, price: nat)
    requires price != MARKET_ORDER_PRICE && ShowsReplaced(Some(dep), env, BookLive(b), IsBuy(orders, id), price, 0)
    requires LookAlike(env, orders, BookLive(b)) && id in orders && PriceOf(orders, id) == price
    ensures var r := OnCallback(dep, orders, CancelCb(id, 0)); r.Some? && Shows(r.value, orders, b)
  {
    OneMoreLook(dep, env, orders, BookLive(b), IsBuy(orders, id), price, 0);
    CloseOneMore(dep, orders, BookLive(b), IsBuy(orders, id), price, 0);
  }

  lemma EmptyingShows(s: Sys, buy: bool, k: nat, t: Tracker, b: Book, d: int, price: nat, orders: OrderMap, v: View,
                      dep: AbsDepth)
    requires Replaced(s, buy, k, t, b, d, price, orders, v) && t.openQty + d == 0 && Shows(dep, s.orders, s.book)
    requires t.ptr in s.orders && Followed(s.orders[t.ptr], d, price)
    ensures var r := SubmitPending(s.orders, b);
            Folded(dep, s.orders, Finish(r, [ReplaceCb(t.ptr, t.openQty, d, price), CancelCb(t.ptr, 0)], false, []).cbs,
                   r.book)
            <==> AllMarket(orders, r.dropped)
  {
    hide AllMarket, Folded, Matching.SubmitPending, Inv, Agrees, Placed, QueueOk, BookOk, Recorded, Views, TakenOut,
         BookSum;
    var head := ReplaceCb(t.ptr, t.openQty, d, price);
    TakenIsPlaced(s, buy, k, t, b);
    HeadFolds(s, buy, k, t, b, d, price, orders, v, dep);
    var d1 := OnCallback(dep, s.orders, head).value;
    ReplacedLook(s, buy, k, t, b, d, price, orders, v);
    ReplacedOrder(s, buy, k, t, b, d, price, orders, v);
    EmptiedShown(s.orders, orders, t.ptr, b, d1, price);
    var d2 := OnCallback(d1, orders, CancelCb(t.ptr, 0)).value;
    TwoCallbacks(dep, s.orders, head, CancelCb(t.ptr, 0));
    CancelLooksSame(orders, t.ptr, 0);
    EmptiedPlaced(s, buy, k, t, b, d, price, orders, v);
    ReplacedViews(s, buy, k, t, b, d, price, orders, v);
    PlacedIsQueue(v, orders, b, s.retired);
    CascadeShows(dep, v, s.orders, [head, CancelCb(t.ptr, 0)], d2, b);
  }
}
