/** The simple order book as a whole: the matching engine, and the depth, the order objects and the
    feed that are driven by its callbacks. In the source they are one object by inheritance
    (src/simple/simple_order_book.h, src/book/depth_order_book.h, src/book/order_book.h). */
module SimpleMarkets {
  import opened Orders
  import opened Options
  import opened Books
  import opened BookClasses
  import opened DepthSpec
  import opened DepthLevels
  import opened Depths
  import opened Requests
  import opened System
  import opened RequestRuns
  import opened RequestInvariants
  import opened Results
  import opened DepthRequests
  import opened DepthResults
  import opened DepthBooks
  import opened FeedWire
  import opened Feed
  import opened OrderBooks
  import opened SimpleOrders

  class SimpleMarket {
    const engine: OrderBook
    const book: SimpleOrderBook

    /** The objects have the values `orders`, the depth shows the book of `s`, and nothing of it is
        unpublished. */
    ghost predicate Follows(s: Sys, orders: OrderMap)
      reads book, book.objects.Values, book.base.depth, book.base.depth.levels
      reads book.base.listener.connection, book.base.listener.connection.sessions
    {
      && book.Different() && book.base.Valid() && !book.base.depth.Changed() && book.Values() == orders
      && DepthRequests.Shows(book.base.depth.Value(), s.orders, s.book)
    }

    /** Every session that is connected and started for the symbol has been told the levels as they
        are, and the object of every resting order is open for what rests of it. */
    ghost predicate Told(s: Sys)
      reads book, book.objects.Values, book.base.depth, book.base.depth.levels
      reads book.base.listener.connection, book.base.listener.connection.sessions
    {
      && book.base.depth.Sized()
      && (forall session | session in book.base.listener.connection.sessions ::
            session.connected && book.base.symbol in session.sentSymbols ==>
            LastTold(session.Out(), book.base.symbol) == Some(book.base.Levels()))
      && (forall buy, k :: 0 <= k < |s.book.Side(buy)| ==>
            var t := s.book.Side(buy)[k].tracker;
            t.ptr in book.objects && book.objects[t.ptr].isBuy == buy
            && book.objects[t.ptr].OpenQty() == t.openQty > 0)
    }

    /** Between two requests: the engine's book is in order, and all the others follow it. */
    ghost predicate Ready()
      reads engine, engine.bids, engine.asks, engine.stopBids, engine.stopAsks
      reads book, book.objects.Values, book.base.depth, book.base.depth.levels
      reads book.base.listener.connection, book.base.listener.connection.sessions
    {
      engine.Ready() && Follows(engine.State(), engine.orders)
    }

    constructor (base: DepthOrderBook)
      requires base.Valid() && base.depth.Value() == NO_DEPTH && !base.depth.Changed()
      ensures Ready() && engine.State() == START && book.base == base
    {
      hide Inv, Depth.Valid, DepthFeedConnection.Telling, MapOf, DepthRequests.Shows;
      engine := new OrderBook();
      book := new SimpleOrderBook(base);
      new;
      StartShows();
    }

    /** The depth, the objects and the feed follow what the engine has delivered for a request. */
    method FollowRequest(cbs: seq<Callback>, ghost s: Sys, ghost r: Request)
      requires Follows(s, OrdersAt(s, r)) && Inv(s) && Proper(s, r) && KeepsDepth(s, r) && cbs == Emitted(s, r)
      modifies book.objects.Values, book.base.depth, book.base.depth.levels
      modifies book.base.listener.connection, book.base.listener.connection.sessions
      ensures Follows(Handle(s, r), Handle(s, r).orders) && Told(Handle(s, r))
    {
      hide Inv, Proper, KeepsDepth, Handle, DepthRequests.Shows, Emitted, OrdersAt, MapOf, Laid,
           StampedSide, Populated,
           DepthFeedConnection.Telling, SimpleOrderBook.Values;
      book.FollowRequest(cbs, s, r);
    }

    /** All of which leaves the engine alone. */
    method Follow(cbs: seq<Callback>, ghost s: Sys, ghost r: Request)
      requires Follows(s, OrdersAt(s, r)) && Inv(s) && Proper(s, r) && KeepsDepth(s, r) && cbs == Emitted(s, r)
      modifies book.objects.Values, book.base.depth, book.base.depth.levels
      modifies book.base.listener.connection, book.base.listener.connection.sessions
      ensures Follows(Handle(s, r), Handle(s, r).orders) && Told(Handle(s, r))
      ensures engine.Ready() == old(engine.Ready()) && engine.State() == old(engine.State())
      ensures engine.orders == old(engine.orders)
    {
      hide OrderBook.Ready, Inv, Proper, KeepsDepth, Handle, Emitted, OrdersAt, SimpleMarket.Follows, SimpleMarket.Told;
      FollowRequest(cbs, s, r);
    }

    method Introduce(id: OrderId, order: SimpleOrder, ghost s: Sys)
      requires Follows(s, s.orders) && order !in book.objects.Values && id !in s.orders
      modifies book
      ensures Follows(s, s.orders[id := order.Value()]) && book.objects == old(book.objects)[id := order]
    {
      hide DepthRequests.Shows, Depth.Valid, MapOf, DepthFeedConnection.Telling;
      book.Introduce(id, order);
    }

    method Add(id: OrderId, order: SimpleOrder, aon: bool, ioc: bool) returns (matched: bool)
      requires Ready() && order !in book.objects.Values
      requires Proper(engine.State(), AddReq(id, order.Value(), aon, ioc))
      requires KeepsDepth(engine.State(), AddReq(id, order.Value(), aon, ioc))
      modifies engine, engine.bids, engine.asks, engine.stopBids, engine.stopAsks, book, book.objects.Values, order
      modifies book.base.depth, book.base.depth.levels
      modifies book.base.listener.connection, book.base.listener.connection.sessions
      ensures Ready() && Told(engine.State())
      ensures engine.State() == Handle(old(engine.State()), old(AddReq(id, order.Value(), aon, ioc)))
    {
      hide Inv, Proper, KeepsDepth, Handle, Emitted, OrdersAt, SimpleMarket.Follows, SimpleMarket.Told, OrderBook.Ready;
      ghost var s, r := engine.State(), AddReq(id, order.Value(), aon, ioc);
      ReadyIsOk();
      NewIsUnknown(s, id, order.Value(), aon, ioc);
      Introduce(id, order, s);
      var delivered := |engine.history|;
      matched := engine.Add(id, order.Value(), aon, ioc);
      HistoryGrows(s, r);
      Follow(engine.history[delivered..], s, r);
    }

    method Cancel(id: OrderId)
      requires Ready() && Proper(engine.State(), CancelReq(id))
      modifies engine, engine.bids, engine.asks, book.objects.Values
      modifies book.base.depth, book.base.depth.levels
      modifies book.base.listener.connection, book.base.listener.connection.sessions
      ensures Ready() && Told(engine.State())
      ensures engine.State() == Handle(old(engine.State()), CancelReq(id))
    {
      hide Inv, Proper, KeepsDepth, Handle, Emitted, OrdersAt, SimpleMarket.Follows, SimpleMarket.Told, OrderBook.Ready;
      ghost var s := engine.State();
      ReadyIsOk();
      CancelIsFollowed(s, id);
      var delivered := |engine.history|;
      engine.Cancel(id);
      HistoryGrows(s, CancelReq(id));
      Follow(engine.history[delivered..], s, CancelReq(id));
    }

    method Replace(id: OrderId, sizeDelta: int, newPrice: nat) returns (matched: bool)
      requires Ready() && Proper(engine.State(), ReplaceReq(id, sizeDelta, newPrice))
      requires KeepsDepth(engine.State(), ReplaceReq(id, sizeDelta, newPrice))
      modifies engine, engine.bids, engine.asks, engine.stopBids, engine.stopAsks, book.objects.Values
      modifies book.base.depth, book.base.depth.levels
      modifies book.base.listener.connection, book.base.listener.connection.sessions
      ensures Ready() && Told(engine.State())
      ensures engine.State() == Handle(old(engine.State()), ReplaceReq(id, sizeDelta, newPrice))
    {
      hide Inv, Proper, KeepsDepth, Handle, Emitted, OrdersAt, SimpleMarket.Follows, SimpleMarket.Told, OrderBook.Ready;
      ghost var s, r := engine.State(), ReplaceReq(id, sizeDelta, newPrice);
      ReadyIsOk();
      ReplaceIsOther(s, id, sizeDelta, newPrice);
      var delivered := |engine.history|;
      matched := engine.Replace(id, sizeDelta, newPrice);
      HistoryGrows(s, r);
      Follow(engine.history[delivered..], s, r);
    }

    lemma ReadyIsOk()
      requires engine.Ready()
      ensures Inv(engine.State())
    {
    }
  }

  lemma NewIsUnknown(s: Sys, id: OrderId, order: Order, aon: bool, ioc: bool)
    requires Proper(s, AddReq(id, order, aon, ioc))
    ensures id !in s.orders && OrdersAt(s, AddReq(id, order, aon, ioc)) == s.orders[id := order]
  {
  }

  lemma ReplaceIsOther(s: Sys, id: OrderId, delta: int, newPrice: nat)
    ensures OrdersAt(s, ReplaceReq(id, delta, newPrice)) == s.orders
  {
  }

  lemma CancelIsFollowed(s: Sys, id: OrderId)
    ensures KeepsDepth(s, CancelReq(id)) && OrdersAt(s, CancelReq(id)) == s.orders
  {
  }

  /** What a request adds to the record of delivered callbacks is what it emits. */
  lemma HistoryGrows(s: Sys, r: Request)
    ensures |s.history| <= |Handle(s, r).history| && Handle(s, r).history[|s.history|..] == Emitted(s, r)
  {
    hide Add, Cancel, Replace, ApplyAll;
  }
}
