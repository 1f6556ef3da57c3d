/** The book is uncrossed in every reachable state, up to one kind of replacement: which one it
    is, and that it does cross the book. */
module UncrossedResults {
  import opened Prices
  import opened Orders
  import opened Books
  import opened Matching
  import opened Faces
  import opened Accounting
  import opened BookRuns
  import opened Cascade
  import opened Priority
  import opened Uncrossed
  import opened Requests
  import opened DepthSpec
  import opened EngineSteps
  import opened System
  import opened RequestRuns
  import opened RequestInvariants
  import opened Results

  lemma AddKeepsUncrossed(s: Sys, id: OrderId, order: Order, t: Tracker)
    requires Fresh(s, id, order, t) && BookUncrossed(s.book)
    ensures BookUncrossed(Add(s.orders[id := order], s.book, id, t.aon, t.ioc).book)
  {
    hide Fresh, Inv, Seen, BookUncrossed, QueueOk, FindsPrice, HasPrice, Matching.AddOrder, Matching.SubmitPending,
         HoldStop;
    var orders := s.orders[id := order];
    var v := Seen(orders, s.book, [t]);
    FreshView(s, id, order, t);
    if Held(orders, id, s.book.stops.marketPrice) {
      var b := HoldStop(orders, s.book, t);
      HeldStopInBook(s, id, order, t, b);
      PlacedIsQueue(v, s.orders[id := order.Accept()], b, s.retired);
      HeldIsUncrossed(orders, s.book, t);
      SubmitPendingKeepsUncrossed(v, b);
    } else {
      NewOrderComing(s, id, order, t);
      assert SideOk(v, s.book.Side(!order.isBuy), !order.isBuy);
      OneMapFindsPrice(v, t, s.book.Side(!order.isBuy), !order.isBuy, HasPrice(s.book.stops));
      SubmissionUncrossed(v, s.book, t);
    }
  }

  lemma HeldIsUncrossed(orders: OrderMap, b: Book, t: Tracker)
    requires t.ptr in orders && BookUncrossed(b)
    ensures BookUncrossed(HoldStop(orders, b, t))
  {
  }

  lemma WithoutKeepsUncrossed(b: Book, buy: bool, k: nat)
    requires k < |b.Side(buy)| && BookUncrossed(b)
    ensures BookUncrossed(Without(b, buy, k))
  {
    var b' := Without(b, buy, k);
    forall i, j | 0 <= i < |b'.bids| && 0 <= j < |b'.asks|
      ensures !Crosses(b'.bids[i], b'.asks[j])
    {
      var i' := if buy && k <= i then i + 1 else i;
      var j' := if !buy && k <= j then j + 1 else j;
      assert b'.bids[i] == b.bids[i'] && b'.asks[j] == b.asks[j'];
      assert !Crosses(b.bids[i'], b.asks[j']);
    }
  }

  lemma EmptyingKeepsUncrossed(s: Sys, buy: bool, k: nat, t: Tracker, b: Book, d: int, price: nat, orders: OrderMap,
                               v: View)
    requires Replaced(s, buy, k, t, b, d, price, orders, v) && t.openQty + d == 0 && BookUncrossed(b)
    ensures BookUncrossed(ReplaceTaken(s.orders, b, t, d, price).book)
  {
    EmptiedPlaced(s, buy, k, t, b, d, price, orders, v);
    ReplacedViews(s, buy, k, t, b, d, price, orders, v);
    PlacedIsQueue(v, orders, b, s.retired);
    SubmitPendingKeepsUncrossed(v, b);
  }

  lemma ResubmittingKeepsUncrossed(s: Sys, buy: bool, k: nat, t: Tracker, b: Book, d: int, price: nat, orders: OrderMap,
                                   v: View)
    requires Replaced(s, buy, k, t, b, d, price, orders, v) && t.openQty + d > 0 && BookUncrossed(b)
    requires FindsPrice(v, t, b.Side(!buy), HasPrice(b.stops))
    ensures BookUncrossed(ReplaceTaken(s.orders, b, t, d, price).book)
  {
    hide FindsPrice, HasPrice, BookUncrossed, Inv, Coming, Matching.AddOrder, Matching.SubmitPending, BookRuns.BookOk;
    ResubmittedComing(s, buy, k, t, b, d, price, orders, v);
    TakenSide(s, buy, k, t, b, d, price, orders, v);
    SameFindsPrice(v, t, t.(openQty := t.openQty + d), b.Side(!buy), HasPrice(b.stops));
    SubmissionUncrossed(v, b, t.(openQty := t.openQty + d));
  }

  lemma TakenSide(s: Sys, buy: bool, k: nat, t: Tracker, b: Book, d: int, price: nat, orders: OrderMap, v: View)
    requires Replaced(s, buy, k, t, b, d, price, orders, v)
    ensures IsBuy(v.denv, t.ptr) == buy && IsBuy(s.orders, t.ptr) == buy
    ensures PriceOf(s.orders, t.ptr) == s.book.Side(buy)[k].key.price
    ensures b.Side(!buy) == s.book.Side(!buy) && b.stops == s.book.stops && b.Side(buy) == Erase(s.book.Side(buy), k)
    ensures !t.ioc && SideOk(Seen(s.orders, s.book), s.book.Side(!buy), !buy)
    ensures PriceOf(v.denv, t.ptr) == price
  {
    ReplacedOrder(s, buy, k, t, b, d, price, orders, v);
    assert SideOk(Seen(s.orders, s.book), s.book.Side(buy), buy);
    assert Resting(Seen(s.orders, s.book), s.book.Side(buy)[k], buy);
  }

  // ---- The replacement that strands a market order ----

  predicate IsMarketOrder(e: Entry) {
    !e.tracker.aon && e.key.price == MARKET_ORDER_PRICE
  }

  /** A regular order without a limit rests on this side. */
  predicate HasMarketOrder(side: seq<Entry>) {
    exists j :: 0 <= j < |side| && IsMarketOrder(side[j])
  }

  /** A resting regular market order is given a limit price and stays open, while a regular market
      order rests on the other side and there is no market price. The source still reads the old
      price of the order, so a trade between the two finds none. */
  predicate Strands(s: Sys, r: Request) {
    && r.ReplaceReq? && r.newPrice != MARKET_ORDER_PRICE && PriceOf(s.orders, r.id) == MARKET_ORDER_PRICE
    && !HasPrice(s.book.stops)
    && var buy := IsBuy(s.orders, r.id);
    && var k := FindOnMarket(s.orders, s.book, r.id);
    && k < |s.book.Side(buy)|
    && var t := s.book.Side(buy)[k].tracker;
    && !t.aon && t.openQty + ClipDelta(r.delta, t.openQty) > 0
    && HasMarketOrder(s.book.Side(!buy))
  }

  /** When both maps of orders are the same, every crossing is priced. */
  lemma OneMapFindsPrice(v: View, t: Tracker, side: seq<Entry>, buySide: bool, priced: bool)
    requires v.env == v.denv && SideOk(v, side, buySide)
    ensures FindsPrice(v, t, side, priced)
  {
    forall k | 0 <= k < |side|
      ensures CrossingIsPriced(v, t, side[k])
    {
      assert Resting(v, side[k], buySide);
    }
  }

  lemma ReplacedFindsPrice(s: Sys, buy: bool, k: nat, t: Tracker, b: Book, d: int, price: nat, orders: OrderMap,
                           v: View)
    requires Replaced(s, buy, k, t, b, d, price, orders, v)
    requires t.aon || HasPrice(s.book.stops) || !HasMarketOrder(s.book.Side(!buy)) ||
             PriceOf(s.orders, t.ptr) != MARKET_ORDER_PRICE
          || price == MARKET_ORDER_PRICE
    ensures FindsPrice(v, t, b.Side(!buy), HasPrice(b.stops))
  {
    TakenSide(s, buy, k, t, b, d, price, orders, v);
    var side := b.Side(!buy);
    if !t.aon && !HasPrice(b.stops) {
      forall j | 0 <= j < |side|
        ensures CrossingIsPriced(v, t, side[j])
      {
        assert Resting(Seen(s.orders, s.book), side[j], !buy);
        assert !HasMarketOrder(side) ==> !IsMarketOrder(side[j]);
      }
    }
  }

  lemma ReplaceKeepsUncrossed(s: Sys, buy: bool, k: nat, t: Tracker, d: int, price: nat)
    requires k < |s.book.Side(buy)| && TakenOut(s, buy, k, t, Without(s.book, buy, k)) && t.openQty + d >= 0
    requires PriceOf(s.orders, t.ptr) != MARKET_ORDER_PRICE ==> price != MARKET_ORDER_PRICE
    requires t.aon || HasPrice(s.book.stops) || !HasMarketOrder(s.book.Side(!buy)) ||
             PriceOf(s.orders, t.ptr) != MARKET_ORDER_PRICE
          || price == MARKET_ORDER_PRICE || t.openQty + d == 0
    requires BookUncrossed(s.book)
    ensures BookUncrossed(ReplaceTaken(s.orders, Without(s.book, buy, k), t, d, price).book)
  {
    hide FindsPrice, HasPrice, BookUncrossed, Inv;
    var b := Without(s.book, buy, k);
    var orders := ApplyCallback(s.orders, ReplaceCb(t.ptr, t.openQty, d, price));
    var v := Seen(s.orders, s.book).(denv := orders);
    WithoutKeepsUncrossed(s.book, buy, k);
    if t.openQty + d == 0 {
      EmptyingKeepsUncrossed(s, buy, k, t, b, d, price, orders, v);
    } else {
      ReplacedFindsPrice(s, buy, k, t, b, d, price, orders, v);
      ResubmittingKeepsUncrossed(s, buy, k, t, b, d, price, orders, v);
    }
  }

  lemma ReplaceRequestKeepsUncrossed(s: Sys, id: OrderId, delta: int, newPrice: nat)
    requires Inv(s) && BookUncrossed(s.book) && !Strands(s, ReplaceReq(id, delta, newPrice))
    ensures BookUncrossed(Replace(s.orders, s.book, id, delta, newPrice).book)
  {
    hide BookUncrossed, HasMarketOrder, HasPrice, Inv, ReplaceTaken, Placed, Recorded, BookOk;
    var buy := IsBuy(s.orders, id);
    var k := FindOnMarket(s.orders, s.book, id);
    if k < |s.book.Side(buy)| {
      var t := s.book.Side(buy)[k].tracker;
      FindsExactlyResting(s, id, k);
      ReplaceKeepsUncrossed(s, buy, k, t, ClipDelta(delta, t.openQty), if newPrice == 0 then PriceOf(s.orders, id)
                            else newPrice);
    }
  }

  lemma SetMarketKeepsUncrossed(b: Book, price: nat)
    requires BookUncrossed(b)
    ensures BookUncrossed(SetMarket(b, price))
  {
  }

  /** Every other request leaves the book uncrossed. */
  lemma HandleKeepsUncrossed(s: Sys, r: Request)
    requires Inv(s) && Proper(s, r) && !Strands(s, r) && BookUncrossed(s.book)
    ensures BookUncrossed(Handle(s, r).book)
  {
    hide BookUncrossed, Inv, Strands;
    match r
    case AddReq(id, order, aon, ioc) =>
      if order.qty > 0 {
        IsFresh(s, id, order, aon, ioc);
        AddKeepsUncrossed(s, id, order, Tracker(id, order.qty, aon, ioc));
      }
    case CancelReq(id) =>
      var k := FindOnMarket(s.orders, s.book, id);
      if k < |s.book.Side(IsBuy(s.orders, id))| {
        WithoutKeepsUncrossed(s.book, IsBuy(s.orders, id), k);
      }
    case ReplaceReq(id, delta, newPrice) => ReplaceRequestKeepsUncrossed(s, id, delta, newPrice);
    case MarketPriceReq(price) => SetMarketKeepsUncrossed(s.book, price);
  }

  ghost predicate NoneStrands(s: Sys, rs: seq<Request>)
    decreases |rs|
  {
    rs == [] || (!Strands(s, rs[0]) && NoneStrands(Handle(s, rs[0]), rs[1..]))
  }

  lemma {:induction false} RunKeepsUncrossed(s: Sys, rs: seq<Request>, s': Sys)
    requires Inv(s) && Reaches(s, rs, s') && NoneStrands(s, rs) && BookUncrossed(s.book)
    ensures BookUncrossed(s'.book)
    decreases |rs|
  {
    hide Inv, Strands, BookUncrossed, Handle, Proper;
    if rs != [] {
      HandleKeepsInv(s, rs[0]);
      HandleKeepsUncrossed(s, rs[0]);
      RunKeepsUncrossed(Handle(s, rs[0]), rs[1..], s');
    }
  }

  // ---- It does cross the book ----

  /** Without any price, a match between market orders does nothing. */
  lemma {:induction false} NothingPriced(env: OrderMap, inbound: Tracker, price: nat, done: seq<Entry>,
                                         rest: seq<Entry>, sb: StopBook)
    requires !HasPrice(sb) && PriceOf(env, inbound.ptr) == MARKET_ORDER_PRICE && AllOpen(rest)
    requires forall k :: 0 <= k < |rest| ==>
             !rest[k].tracker.aon && PriceOf(env, rest[k].tracker.ptr) == MARKET_ORDER_PRICE
    ensures MatchRegular(env, inbound, price, done, rest, sb) == Match(inbound, done + rest, sb, [], [], false)
    decreases |rest|
  {
    if rest != [] && inbound.openQty != 0 && rest[0].key.Matches(price) {
      var e, tail := rest[0], rest[1..];
      var t := CreateTrade(env, inbound, e.tracker, inbound.openQty, sb);
      assert t == Trade(inbound, e.tracker, sb, 0, []);
      assert Past(done, e, e.tracker) == done + [e];
      NothingPriced(env, inbound, price, done + [e], tail, sb);
      assert done + [e] + tail == done + rest;
    }
  }

  /** In an uncrossed book with a regular market order on one side, the other side has no regular
      limit order. */
  lemma OnlyMarketOpposite(s: Sys, buy: bool, k: nat)
    requires Inv(s) && BookUncrossed(s.book) && k < |s.book.Side(buy)| && IsMarketOrder(s.book.Side(buy)[k])
    requires AllRegular(s.book.Side(!buy))
    ensures var side := s.book.Side(!buy);
            AllOpen(side) && forall j :: 0 <= j < |side| ==>
                IsMarketOrder(side[j]) && PriceOf(s.orders, side[j].tracker.ptr) == MARKET_ORDER_PRICE
  {
    var side, e := s.book.Side(!buy), s.book.Side(buy)[k];
    assert SideOk(Seen(s.orders, s.book), side, !buy) && SideOk(Seen(s.orders, s.book), s.book.Side(buy), buy);
    assert Resting(Seen(s.orders, s.book), e, buy);
    forall j | 0 <= j < |side|
      ensures IsMarketOrder(side[j]) && PriceOf(s.orders, side[j].tracker.ptr) == MARKET_ORDER_PRICE
    {
      assert Resting(Seen(s.orders, s.book), side[j], !buy);
      assert !Crosses(if buy then e else side[j], if buy then side[j] else e);
    }
  }

  lemma StrandedMatch(s: Sys, buy: bool, k: nat, t: Tracker, price: nat)
    requires Inv(s) && BookUncrossed(s.book) && k < |s.book.Side(buy)| && IsMarketOrder(s.book.Side(buy)[k])
    requires !HasPrice(s.book.stops) && AllRegular(s.book.Side(!buy)) && PriceOf(s.orders, t.ptr) == MARKET_ORDER_PRICE
    ensures MatchRegular(s.orders, t, price, [], s.book.Side(!buy), s.book.stops)
         == Match(t, s.book.Side(!buy), s.book.stops, [], [], false)
    ensures s.book.stops.pending == []
  {
    hide Inv, BookUncrossed, Matching.MatchRegular;
    OnlyMarketOpposite(s, buy, k);
    NothingPending(s);
    NothingPriced(s.orders, t, price, [], s.book.Side(!buy), s.book.stops);
    assert [] + s.book.Side(!buy) == s.book.Side(!buy);
  }

  /** The order is put back at its limit, untraded. */
  lemma StrandedRests(s: Sys, buy: bool, k: nat, t: Tracker, d: int, price: nat)
    requires k < |s.book.Side(buy)| && TakenOut(s, buy, k, t, Without(s.book, buy, k)) && t.openQty + d > 0
    requires PriceOf(s.orders, t.ptr) == MARKET_ORDER_PRICE && price != MARKET_ORDER_PRICE && !t.aon
    requires BookUncrossed(s.book) && !HasPrice(s.book.stops) && AllRegular(s.book.Side(!buy))
    ensures var e := Entry(ComparablePrice(buy, price), t.(openQty := t.openQty + d));
            var b := ReplaceTaken(s.orders, Without(s.book, buy, k), t, d, price).book;
            b.Side(buy) == Insert(Erase(s.book.Side(buy), k), e) && b.Side(!buy) == s.book.Side(!buy)
  {
    hide Inv, BookUncrossed, AllRegular, HasPrice, Insert, Erase, Matching.AddOrder, Matching.MatchRegular,
         Matching.SubmitPending;
    var b, t' := Without(s.book, buy, k), t.(openQty := t.openQty + d);
    var orders := ApplyCallback(s.orders, ReplaceCb(t.ptr, t.openQty, d, price));
    var v := Seen(s.orders, s.book).(denv := orders);
    TakenSide(s, buy, k, t, b, d, price, orders, v);
    StrandedMatch(s, buy, k, t', price);
    UntradedRests(s.orders, b, buy, t', price);
  }

  /** An order that trades with nobody only joins its side. */
  lemma UntradedRests(env: OrderMap, b: Book, buy: bool, t: Tracker, price: nat)
    requires IsBuy(env, t.ptr) == buy && t.openQty > 0 && !t.ioc && !t.aon && b.stops.pending == []
    requires MatchRegular(env, t, price, [], b.Side(!buy), b.stops) == Match(t, b.Side(!buy), b.stops, [], [], false)
    ensures var b' := SubmitPending(env, AddOrder(env, b, t, price).book).book;
            b'.Side(buy) == Insert(b.Side(buy), Entry(ComparablePrice(buy, price), t)) && b'.Side(!buy) == b.Side(!buy)
  {
    hide MatchRegular, Insert;
  }

  lemma NothingPending(s: Sys)
    requires Inv(s) && !HasPrice(s.book.stops)
    ensures s.book.stops.pending == []
  {
  }

  lemma InsertedIsThere(s: seq<Entry>, e: Entry)
    ensures var k := InsertPos(s, e.key); k < |Insert(s, e)| && Insert(s, e)[k] == e
  {
  }

  lemma StrandedCrosses(s: Sys, buy: bool, k: nat, t: Tracker, d: int, price: nat)
    requires k < |s.book.Side(buy)| && TakenOut(s, buy, k, t, Without(s.book, buy, k)) && t.openQty + d > 0
    requires PriceOf(s.orders, t.ptr) == MARKET_ORDER_PRICE && price != MARKET_ORDER_PRICE && !t.aon
    requires BookUncrossed(s.book) && !HasPrice(s.book.stops) && AllRegular(s.book.Side(!buy))
    requires HasMarketOrder(s.book.Side(!buy))
    ensures !BookUncrossed(ReplaceTaken(s.orders, Without(s.book, buy, k), t, d, price).book)
  {
    hide Inv, ReplaceTaken, Insert, InsertPos;
    StrandedRests(s, buy, k, t, d, price);
    var e := Entry(ComparablePrice(buy, price), t.(openQty := t.openQty + d));
    var own, opposite := Erase(s.book.Side(buy), k), s.book.Side(!buy);
    InsertedIsThere(own, e);
    var i := InsertPos(own, e.key);
    var j :| 0 <= j < |opposite| && IsMarketOrder(opposite[j]);
    OppositeKey(s, !buy, j);
    assert Crosses(if buy then e else opposite[j], if buy then opposite[j] else e);
    var b := ReplaceTaken(s.orders, Without(s.book, buy, k), t, d, price).book;
    assert b.Side(buy)[i] == e && b.Side(!buy)[j] == opposite[j];
    assert if buy then Crosses(b.bids[i], b.asks[j]) else Crosses(b.bids[j], b.asks[i]);
  }

  lemma OppositeKey(s: Sys, buy: bool, j: nat)
    requires Inv(s) && j < |s.book.Side(buy)|
    ensures s.book.Side(buy)[j].key.buySide == buy
  {
    assert SideOk(Seen(s.orders, s.book), s.book.Side(buy), buy);
  }

  /** With no all-or-none order on the other side of a replaced order, a request leaves the book
      uncrossed if and only if it strands no market order. */
  lemma UncrossedExactlyWhen(s: Sys, r: Request)
    requires Inv(s) && Proper(s, r) && BookUncrossed(s.book)
    requires r.ReplaceReq? ==> AllRegular(s.book.Side(!IsBuy(s.orders, r.id)))
    ensures BookUncrossed(Handle(s, r).book) <==> !Strands(s, r)
  {
    hide BookUncrossed, HasPrice, HasMarketOrder, AllRegular, ReplaceTaken, Inv;
    if Strands(s, r) {
      var buy := IsBuy(s.orders, r.id);
      var k := FindOnMarket(s.orders, s.book, r.id);
      var t := s.book.Side(buy)[k].tracker;
      FindsExactlyResting(s, r.id, k);
      StrandedCrosses(s, buy, k, t, ClipDelta(r.delta, t.openQty), r.newPrice);
    } else {
      HandleKeepsUncrossed(s, r);
    }
  }

  const RESTING_BID := Tracker(1, 10, false, false)
  const RESTING_ASK := Entry(ComparablePrice(false, 0), Tracker(2, 10, false, false))
  const TWO_ORDERS: OrderMap := map[1 := Order(true, 0, 10, 0, 0, 0, Accepted),
                                    2 := Order(false, 0, 10, 0, 0, 0, Accepted)]
  const TWO_SIDES := Book([Entry(ComparablePrice(true, 0), RESTING_BID)], [RESTING_ASK], StopBook(0, [], [], []))
  const ASK_SIDE := Book([], [RESTING_ASK], StopBook(0, [], [], []))

  lemma BidIsTaken()
    ensures Replace(TWO_ORDERS, TWO_SIDES, 1, 0, 100) == ReplaceTaken(TWO_ORDERS, ASK_SIDE, RESTING_BID, 0, 100)
  {
    hide ReplaceTaken;
    assert FindOnMarket(TWO_ORDERS, TWO_SIDES, 1) == 0;
    assert Without(TWO_SIDES, true, 0) == ASK_SIDE;
  }

  lemma BidRestsAgain()
    ensures var b := ReplaceTaken(TWO_ORDERS, ASK_SIDE, RESTING_BID, 0, 100).book;
            b.bids == Insert([], Entry(ComparablePrice(true, 100), RESTING_BID)) && b.asks == [RESTING_ASK]
  {
    hide Matching.SubmitPending, Matching.AddOrder, Insert;
    NothingPriced(TWO_ORDERS, RESTING_BID, 100, [], [RESTING_ASK], ASK_SIDE.stops);
    assert [] + [RESTING_ASK] == [RESTING_ASK];
    UntradedRests(TWO_ORDERS, ASK_SIDE, true, RESTING_BID, 100);
    assert RESTING_BID.(openQty := 10 + 0) == RESTING_BID;
  }

  /** A bid and an ask for 10 rest without a limit or a market price. Given the limit 100, the bid
      still does not trade with the ask, and the book is crossed. */
  lemma ReplaceCrossesBook()
    ensures BookUncrossed(TWO_SIDES) && !BookUncrossed(Replace(TWO_ORDERS, TWO_SIDES, 1, 0, 100).book)
  {
    hide Replace, ReplaceTaken, Insert;
    BidIsTaken();
    BidRestsAgain();
    InsertedIsThere([], Entry(ComparablePrice(true, 100), RESTING_BID));
    var b := Replace(TWO_ORDERS, TWO_SIDES, 1, 0, 100).book;
    var i :| 0 <= i < |b.bids| && b.bids[i] == Entry(ComparablePrice(true, 100), RESTING_BID);
    assert Crosses(b.bids[i], b.asks[0]);
  }
}
