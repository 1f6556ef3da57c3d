/** The application's side: its order objects, and the simple order book, which updates them after
    the depth order book has followed a callback (src/simple/simple_order.cpp,
    src/simple/simple_order_book.h). */
module SimpleOrders {
  import opened Orders
  import opened Options
  import opened DepthSpec
  import opened DepthLevels
  import opened Depths
  import opened System
  import opened RequestRuns
  import opened RequestInvariants
  import opened Results
  import opened DepthRequests
  import opened DepthResults
  import opened DepthBooks
  import opened FeedWire
  import opened Feed

  /** The application's order object. */
  class SimpleOrder {
    const isBuy: bool
    const stopPrice: nat
    var price: nat
    var qty: nat
    var filledQty: nat
    var filledCost: nat
    var state: OrderState

    function Value(): Order
      reads this
    {
      Order(isBuy, price, qty, stopPrice, filledQty, filledCost, state)
    }

    constructor (isBuy: bool, price: nat, qty: nat, stopPrice: nat)
      ensures Value() == Order(isBuy, price, qty, stopPrice, 0, 0, New)
    {
      this.isBuy, this.price, this.qty, this.stopPrice := isBuy, price, qty, stopPrice;
      filledQty, filledCost, state := 0, 0, New;
    }

    function OpenQty(): (open: nat)
      reads this
      ensures open == Value().OpenQty()
    {
      if filledQty < qty then qty - filledQty else 0
    }

    method Fill(fillQty: nat, fillCost: nat)
      modifies this
      ensures Value() == old(Value()).Fill(fillQty, fillCost)
    {
      filledQty := filledQty + fillQty;
      filledCost := filledCost + fillCost;
      if OpenQty() == 0 {
        state := Complete;
      }
    }

    method Accept()
      modifies this
      ensures Value() == old(Value()).Accept()
    {
      if state == New {
        state := Accepted;
      }
    }

    method Cancel()
      modifies this
      ensures Value() == old(Value()).Cancel()
    {
      if state != Complete {
        state := Cancelled;
      }
    }

    /** The size of an order stays within its unsigned range. */
    method Replace(sizeDelta: int, newPrice: nat)
      modifies this
      ensures Value() == old(Value()).Replace(sizeDelta, newPrice)
    {
      if state == Accepted && qty + sizeDelta >= 0 {
        qty := qty + sizeDelta;
        price := newPrice;
      }
    }
  }

  class SimpleOrderBook {
    const base: DepthOrderBook
    /** The object behind each order pointer. */
    var objects: map<OrderId, SimpleOrder>

    constructor (base: DepthOrderBook)
      ensures this.base == base && objects == map[] && Different()
    {
      this.base := base;
      objects := map[];
    }

    /** Different pointers, different objects. */
    ghost predicate Different()
      reads this
    {
      forall i, j :: i in objects && j in objects && objects[i] == objects[j] ==> i == j
    }

    /** The orders as they are now. */
    function Values(): OrderMap
      reads this, objects.Values
    {
      map id | id in objects :: objects[id].Value()
    }

    /** The application makes an order known. */
    method Introduce(id: OrderId, order: SimpleOrder)
      requires Different() && order !in objects.Values && id !in objects
      modifies this`objects
      ensures Different() && Values() == old(Values())[id := order.Value()] && objects == old(objects)[id := order]
    {
      objects := objects[id := order];
    }

    /** One object is changed, and no other order with it. */
    twostate lemma OneChanged(id: OrderId)
      requires Different() && objects == old(objects) && id in objects
      requires forall i :: i in objects && i != id ==> unchanged(objects[i])
      ensures Values() == old(Values())[id := objects[id].Value()]
    {
    }

    method FillOrder(id: OrderId, quantity: nat, fillCost: nat)
      requires Different()
      modifies objects.Values
      ensures Values() == if id in objects then old(Values())[id := old(Values())[id].Fill(quantity, fillCost)]
              else old(Values())
    {
      if id in objects {
        objects[id].Fill(quantity, fillCost);
        OneChanged(id);
      }
    }

    /** The objects change in place as the callback says, the matched order before the inbound one. */
    method UpdateOrders(cb: Callback)
      requires Different()
      modifies objects.Values
      ensures Values() == ApplyCallback(old(Values()), cb)
    {
      match cb
      case AcceptCb(id, _) =>
        if id in objects {
          objects[id].Accept();
          OneChanged(id);
        }
      case FillCb(id, matched, quantity, price, _, _) =>
        var fillCost := quantity * price;
        FillOrder(matched, quantity, fillCost);
        FillOrder(id, quantity, fillCost);
      case CancelCb(id, _) =>
        if id in objects {
          objects[id].Cancel();
          OneChanged(id);
        }
      case ReplaceCb(id, _, delta, newPrice) =>
        if id in objects {
          objects[id].Replace(delta, newPrice);
          OneChanged(id);
        }
      case _ =>
    }

    /** The depth follows a callback first, reading the orders as they are; then they change. */
    method PerformCallback(cb: Callback)
      requires Different() && base.Valid() && OnCallback(base.depth.Value(), Values(), cb).Some?
      modifies objects.Values, base.depth, base.depth.levels, base.listener.connection,
               base.listener.connection.sessions
      ensures base.Valid() && base.depth.Value() == OnCallback(old(base.depth.Value()), old(Values()), cb).value
      ensures Values() == ApplyCallback(old(Values()), cb)
      ensures base.SessionsKept()
      ensures cb.BookUpdateCb? ==> !base.depth.Changed()
      ensures IsReject(cb) ==> base.depth.Changed() == old(base.depth.Changed())
    {
      hide OnCallback, ApplyCallback, MapOf, Laid, StampedSide, Populated, Sending, Feed.Different,
           SimpleOrderBook.Values, Depth.Valid, DepthFeedConnection.Telling;
      base.PerformCallback(cb, Values());
      UpdateOrders(cb);
    }

    /** Callbacks in order, each read against the orders as the ones before left them. */
    method PerformCallbacks(cbs: seq<Callback>)
      requires Different() && base.Valid() && FoldDepth(base.depth.Value(), Values(), cbs).Some?
      modifies objects.Values, base.depth, base.depth.levels, base.listener.connection,
               base.listener.connection.sessions
      ensures base.Valid() && base.depth.Value() == FoldDepth(old(base.depth.Value()), old(Values()), cbs).value
      ensures Values() == ApplyAll(old(Values()), cbs)
      ensures base.SessionsKept()
      ensures EndsUpdated(cbs) && !old(base.depth.Changed()) ==> !base.depth.Changed()
    {
      hide OnCallback, ApplyCallback, MapOf, Laid, StampedSide, Populated, Sending, Feed.Different,
           SimpleOrderBook.Values, DepthFeedConnection.Telling;
      var i := 0;
      while i < |cbs|
        invariant i <= |cbs| && base.Valid()
        invariant FoldDepth(base.depth.Value(), Values(), cbs[i..])
                  == FoldDepth(old(base.depth.Value()), old(Values()), cbs)
        invariant ApplyAll(Values(), cbs[i..]) == ApplyAll(old(Values()), cbs)
        invariant base.SessionsKept()
        invariant i > 0 && cbs[i - 1].BookUpdateCb? ==> !base.depth.Changed()
        invariant (forall j :: 0 <= j < i ==> IsReject(cbs[j])) ==> base.depth.Changed() == old(base.depth.Changed())
      {
        assert cbs[i..][0] == cbs[i] && cbs[i..][1..] == cbs[i + 1..];
        PerformCallback(cbs[i]);
        i := i + 1;
      }
    }

    /** The callbacks of a request the depth can follow. Afterwards the depth shows the book; every
        session that is still connected and has been started for the symbol has been told the levels
        as they are; and the object of every resting order is open for what rests of it. */
    method FollowRequest(cbs: seq<Callback>, ghost s: Sys, ghost r: Request)
      requires Different() && base.Valid() && !base.depth.Changed()
      requires Inv(s) && Proper(s, r) && KeepsDepth(s, r) && DepthRequests.Shows(base.depth.Value(), s.orders, s.book)
      requires cbs == Emitted(s, r) && Values() == OrdersAt(s, r)
      modifies objects.Values, base.depth, base.depth.levels, base.listener.connection,
               base.listener.connection.sessions
      ensures base.Valid() && !base.depth.Changed() && Values() == Handle(s, r).orders
      ensures DepthRequests.Shows(base.depth.Value(), Handle(s, r).orders, Handle(s, r).book)
      ensures forall session | session in base.listener.connection.sessions ::
        session.connected && base.symbol in session.sentSymbols ==>
        LastTold(session.Out(), base.symbol) == Some(base.Levels())
      ensures forall buy, k :: 0 <= k < |Handle(s, r).book.Side(buy)| ==>
        var t := Handle(s, r).book.Side(buy)[k].tracker;
        t.ptr in objects && objects[t.ptr].isBuy == buy && objects[t.ptr].OpenQty() == t.openQty > 0
    {
      hide Inv, Proper, KeepsDepth, Emitted, OrdersAt, Handle, FoldDepth, ApplyAll, DepthRequests.Shows, MapOf, Laid,
           StampedSide, Populated, Sending, Feed.Different;
      RequestKeepsDepth(s, r, base.depth.Value());
      EmittedEndsUpdated(s, r);
      PerformCallbacks(cbs);
      forall session | session in base.listener.connection.sessions && session.connected &&
          base.symbol in session.sentSymbols
        ensures LastTold(session.Out(), base.symbol) == Some(base.Levels())
      {
        base.SessionWasTold(session);
      }
      HandleKeepsInv(s, r);
      forall buy, k | 0 <= k < |Handle(s, r).book.Side(buy)|
        ensures var t := Handle(s, r).book.Side(buy)[k].tracker;
                t.ptr in objects && objects[t.ptr].isBuy == buy && objects[t.ptr].OpenQty() == t.openQty > 0
      {
        RestingMirrorsOrder(Handle(s, r), buy, k);
      }
    }
  }
}
