/** The depth order book: it drives the depth from the callbacks of the order book, and
    publishes it when it has changed (src/book/depth_order_book.h). */
module DepthBooks {
  import opened Orders
  import opened Options
  import opened DepthSpec
  import opened DepthLevels
  import opened Depths
  import opened RequestRuns
  import opened Results
  import opened DepthResults
  import opened System
  import opened Matching
  import opened Requests
  import opened FeedWire
  import opened Feed

  // What the handlers do to the two sides is what the fold over the map does.

  lemma AcceptIs(d: AbsDepth, e: AbsDepth, orders: OrderMap, id: OrderId, quantity: nat, thrown: bool)
    requires id in orders && OnCallback(d, orders, AcceptCb(id, quantity)).Some?
    requires var o := orders[id];
             var side := d.Side(o.isBuy);
             && (thrown <==> o.IsLimit() && quantity == o.qty && side.IgnoreFill(quantity).None?)
             && e.Side(!o.isBuy) == d.Side(!o.isBuy)
             && e.Side(o.isBuy) == if !o.IsLimit() || thrown then side
                                   else if quantity == o.qty then side.IgnoreFill(quantity).value
                                   else side.AddOrder(o.price, o.qty)
    ensures e == OnCallback(d, orders, AcceptCb(id, quantity)).value
  {
  }

  lemma CancelIs(d: AbsDepth, e: AbsDepth, orders: OrderMap, id: OrderId, quantity: nat)
    requires id in orders && OnCallback(d, orders, CancelCb(id, quantity)).Some?
    requires var o := orders[id];
             var side := d.Side(o.isBuy);
             && (o.IsLimit() ==> side.CloseOrder(o.price, quantity).Some?)
             && e.Side(!o.isBuy) == d.Side(!o.isBuy)
             && e.Side(o.isBuy) == if o.IsLimit() then side.CloseOrder(o.price, quantity).value else side
    ensures e == OnCallback(d, orders, CancelCb(id, quantity)).value
  {
  }

  lemma ReplaceIs(d: AbsDepth, e: AbsDepth, orders: OrderMap, id: OrderId, open: nat, delta: int, newPrice: nat)
    requires OnCallback(d, orders, ReplaceCb(id, open, delta, newPrice)).Some?
    ensures id in orders && orders[id].qty + delta >= 0
    ensures d.Side(orders[id].isBuy).ReplaceOrder(orders[id].price, newPrice, orders[id].qty,
                                                  orders[id].qty + delta).Some?
    ensures var o := orders[id];
            && e.Side(!o.isBuy) == d.Side(!o.isBuy)
            && e.Side(o.isBuy) == d.Side(o.isBuy).ReplaceOrder(o.price, newPrice, o.qty, o.qty + delta).value
            ==> e == OnCallback(d, orders, ReplaceCb(id, open, delta, newPrice)).value
  {
  }

  lemma CancelFindsLevel(d: AbsDepth, orders: OrderMap, id: OrderId, quantity: nat)
    requires id in orders && OnCallback(d, orders, CancelCb(id, quantity)).Some?
    ensures var o := orders[id];
            o.IsLimit() ==> o.price in d.Side(o.isBuy).levels && d.Side(o.isBuy).CloseOrder(o.price, quantity).Some?
  {
  }

  lemma FillIs(d: AbsDepth, orders: OrderMap, cb: Callback)
    requires cb.FillCb? && OnCallback(d, orders, cb).Some?
    ensures FillEnd(d, orders, cb.matched, cb.quantity, cb.matchedFilled).Some?
    ensures OnCallback(d, orders, cb)
            == FillEnd(FillEnd(d, orders, cb.matched, cb.quantity, cb.matchedFilled).value, orders, cb.order,
                       cb.quantity, cb.inboundFilled)
  {
    hide FillEnd;
  }

  lemma OthersDoNothing(d: AbsDepth, orders: OrderMap, cb: Callback)
    requires (!cb.AcceptCb? && !cb.FillCb? && !cb.CancelCb? && !cb.ReplaceCb?) ||
             ((cb.AcceptCb? || cb.CancelCb?) && cb.order !in orders)
    ensures OnCallback(d, orders, cb) == Some(d)
  {
  }

  // ---- Publication ----

  predicate IsReject(cb: Callback) {
    cb.RejectCb? || cb.CancelRejectCb? || cb.ReplaceRejectCb?
  }

  /** Nothing is left unpublished: the last callback is a book update, or all are rejections. */
  predicate EndsUpdated(cbs: seq<Callback>) {
    (|cbs| > 0 && cbs[|cbs| - 1].BookUpdateCb?) || forall i :: 0 <= i < |cbs| ==> IsReject(cbs[i])
  }

  lemma EmittedEndsUpdated(s: Sys, r: Request)
    requires Proper(s, r) && Inv(s)
    ensures EndsUpdated(Emitted(s, r))
  {
    hide Matching.AddOrder, SubmitPending, Requests.FindOnMarket, Inv, ClipDelta;
  }

  /** A slot that is not stamped after the last publication is as it was shown then. */
  lemma BestUnchanged(slots: seq<DepthLevel>, shown: seq<Datum>, published: nat, change: nat)
    requires StampedSide(slots, shown, published, change) && |slots| > 0
    ensures |shown| == |slots| && (slots[0].ChangedSince(published) || Datas(slots)[0] == shown[0])
  {
  }

  lemma AllUnchanged(slots: seq<DepthLevel>, shown: seq<Datum>, change: nat)
    requires StampedSide(slots, shown, change, change)
    ensures Datas(slots) == shown
  {
    forall j | 0 <= j < |slots|
      ensures slots[j].Data() == shown[j]
    {
      UnchangedIsShown(slots, shown, change, j);
    }
  }

  /** What a session was last told about a symbol. */
  ghost function LastTold(w: Wire, symbol: Symbol): Option<Screen> {
    if |w.sent| == |w.asOf| then LastShown(w, |w.sent|, symbol) else None
  }

  lemma SentWasTold(w: Wire, shown: map<Symbol, Screen>, size: nat, symbol: Symbol)
    requires Sending(w, shown, size) && symbol in w.sentSymbols
    ensures symbol in shown && LastTold(w, symbol) == Some(shown[symbol])
  {
  }

  class DepthOrderBook {
    const symbol: Symbol
    const depth: Depth
    /** The listener that is told of changes: the publisher of the depth feed. */
    const listener: DepthFeedPublisher

    /** The sessions of the feed have been told what the depth counts as shown. */
    ghost predicate Valid()
      reads depth, depth.levels, listener.connection, listener.connection.sessions
    {
      depth.Valid() && depth.SIZE == listener.connection.size && listener.Tracks(symbol, depth) &&
          listener.connection.Telling()
    }

    constructor (symbol: Symbol, size: nat, listener: DepthFeedPublisher)
      requires size > 0 && size == listener.connection.size && listener.connection.Telling()
      requires symbol !in listener.connection.shown
      ensures fresh(depth) && fresh(depth.levels) && this.symbol == symbol && this.listener == listener
      ensures Valid() && depth.Value() == NO_DEPTH && !depth.Changed()
    {
      hide StampedSide, Laid, Populated, MapOf, Sending, Different, DepthFeedConnection.Telling;
      this.symbol, this.listener := symbol, listener;
      depth := new Depth(size);
    }

    /** The levels the depth shows. */
    ghost function Levels(): Screen
      requires depth.Sized()
      reads depth.levels
    {
      Screen(Datas(depth.Slots(true)), Datas(depth.Slots(false)))
    }

    /** When nothing is left to publish, a session that is still connected and has been started for
        the symbol was last told the levels as they are. */
    lemma SessionWasTold(session: DepthFeedSession)
      requires Valid() && !depth.Changed()
      requires session in listener.connection.sessions && session.connected && symbol in session.sentSymbols
      ensures LastTold(session.Out(), symbol) == Some(Levels())
    {
      hide StampedSide, Sending, Laid, Populated, Datas;
      AllUnchanged(depth.Slots(true), depth.shownBids, depth.lastChange);
      AllUnchanged(depth.Slots(false), depth.shownAsks, depth.lastChange);
      SentWasTold(session.Out(), listener.connection.shown, listener.connection.size, symbol);
    }

    /** Nothing was published. */
    twostate predicate Unpublished()
      reads depth
    {
      depth.shownBids == old(depth.shownBids) && depth.shownAsks == old(depth.shownAsks)
    }

    // ---- Callbacks ----

    method OnAccept(order: Order, quantity: nat) returns (thrown: bool)
      requires depth.Valid()
      modifies depth, depth.levels
      ensures Unpublished()
      ensures depth.Valid()
      ensures var side := old(depth.Side(order.isBuy));
              thrown <==> order.IsLimit() && quantity == order.qty && side.IgnoreFill(quantity).None?
      ensures var side := old(depth.Side(order.isBuy));
              depth.Side(order.isBuy) == if !order.IsLimit() || thrown then side
                                         else if quantity == order.qty then side.IgnoreFill(quantity).value
                                         else side.AddOrder(order.price, order.qty)
      ensures depth.Side(!order.isBuy) == old(depth.Side(!order.isBuy))
    {
      hide MapOf, Laid, StampedSide, Populated, DepthSide.AddOrder, DepthSide.IgnoreFill;
      thrown := false;
      if order.IsLimit() {
        if quantity == order.qty {
          // it is going away immediately: its fills are to be ignored
          thrown := depth.IgnoreFillQty(quantity, order.isBuy);
        } else {
          depth.AddOrder(order.price, order.qty, order.isBuy);
        }
      }
    }

    /** One end of a fill, for a limit order. */
    method FillLimit(orders: OrderMap, id: OrderId, quantity: nat, filled: bool)
      requires depth.Valid() && FillEnd(depth.Value(), orders, id, quantity, filled).Some?
      modifies depth, depth.levels
      ensures Unpublished()
      ensures depth.Valid() && depth.Value() == FillEnd(old(depth.Value()), orders, id, quantity, filled).value
    {
      hide MapOf, Laid, StampedSide, Populated;
      if id in orders && orders[id].IsLimit() {
        var thrown := depth.FillOrder(orders[id].price, quantity, filled, orders[id].isBuy);
      }
    }

    /** The matched order first, then the inbound one. */
    method OnFill(orders: OrderMap, id: OrderId, matched: OrderId, quantity: nat, inboundFilled: bool,
                  matchedFilled: bool)
      requires depth.Valid()
      requires FillEnd(depth.Value(), orders, matched, quantity, matchedFilled).Some?
      requires FillEnd(FillEnd(depth.Value(), orders, matched, quantity, matchedFilled).value, orders, id, quantity,
                       inboundFilled).Some?
      modifies depth, depth.levels
      ensures Unpublished()
      ensures depth.Valid()
      ensures depth.Value()
              == FillEnd(FillEnd(old(depth.Value()), orders, matched, quantity, matchedFilled).value, orders, id,
                         quantity, inboundFilled).value
    {
      hide FillEnd;
      FillLimit(orders, matched, quantity, matchedFilled);
      FillLimit(orders, id, quantity, inboundFilled);
    }

    method OnCancel(order: Order, quantity: nat) returns (thrown: bool)
      requires depth.Valid() && (order.IsLimit() ==> order.price in depth.Side(order.isBuy).levels)
      modifies depth, depth.levels
      ensures Unpublished()
      ensures thrown <==> order.IsLimit() && old(depth.Side(order.isBuy)).CloseOrder(order.price, quantity).None?
      ensures !thrown ==> depth.Valid() && depth.Side(!order.isBuy) == old(depth.Side(!order.isBuy))
      ensures !thrown ==>
              depth.Side(order.isBuy) == if order.IsLimit() then
              old(depth.Side(order.isBuy)).CloseOrder(order.price, quantity).value
                                                     else old(depth.Side(order.isBuy))
    {
      hide MapOf, Laid, StampedSide, Populated, DepthSide.CloseOrder;
      thrown := false;
      if order.IsLimit() {
        var erased;
        erased, thrown := depth.CloseOrder(order.price, quantity, order.isBuy);
      }
    }

    method OnReplace(order: Order, currentQty: nat, newQty: nat, newPrice: nat)
      requires depth.Valid()
      requires depth.Side(order.isBuy).ReplaceOrder(order.price, newPrice, currentQty, newQty).Some?
      modifies depth, depth.levels
      ensures Unpublished()
      ensures depth.Valid() && depth.Side(!order.isBuy) == old(depth.Side(!order.isBuy))
      ensures depth.Side(order.isBuy)
              == old(depth.Side(order.isBuy)).ReplaceOrder(order.price, newPrice, currentQty, newQty).value
    {
      hide MapOf;
      var erased, thrown := depth.ReplaceOrder(order.price, newPrice, currentQty, newQty, order.isBuy);
    }

    /** Any callback but a book update, which the depth can follow: nothing is thrown, and the depth
        is what the fold says. */
    method OnOrder(cb: Callback, orders: OrderMap)
      requires depth.Valid() && OnCallback(depth.Value(), orders, cb).Some? && !cb.BookUpdateCb?
      modifies depth, depth.levels
      ensures Unpublished()
      ensures depth.Valid() && depth.Value() == OnCallback(old(depth.Value()), orders, cb).value
      ensures IsReject(cb) ==> depth.Changed() == old(depth.Changed())
    {
      hide MapOf, Laid, StampedSide, Populated, FillEnd, OnCallback, DepthSide.CloseOrder, DepthSide.AddOrder,
           DepthSide.IgnoreFill, DepthSide.ReplaceOrder;
      ghost var before := depth.Value();
      if IsReject(cb) || ((cb.AcceptCb? || cb.CancelCb?) && cb.order !in orders) {
        OthersDoNothing(before, orders, cb);
        return;
      }
      match cb
      case AcceptCb(id, quantity) =>
        var thrown := OnAccept(orders[id], quantity);
        AcceptIs(before, depth.Value(), orders, id, quantity, thrown);
      case FillCb(id, matched, quantity, _, inboundFilled, matchedFilled) =>
        FillIs(before, orders, cb);
        OnFill(orders, id, matched, quantity, inboundFilled, matchedFilled);
      case CancelCb(id, quantity) =>
        CancelFindsLevel(before, orders, id, quantity);
        var thrown := OnCancel(orders[id], quantity);
        CancelIs(before, depth.Value(), orders, id, quantity);
      case ReplaceCb(id, open, delta, newPrice) =>
        ReplaceIs(before, before, orders, id, open, delta, newPrice);
        OnReplace(orders[id], orders[id].qty, orders[id].qty + delta, newPrice);
        ReplaceIs(before, depth.Value(), orders, id, open, delta, newPrice);
    }

    /** A callback the depth can follow. A book update leaves nothing that the sessions were not
        told; a rejection changes nothing. */
    method PerformCallback(cb: Callback, orders: OrderMap)
      requires Valid() && OnCallback(depth.Value(), orders, cb).Some?
      modifies depth, depth.levels, listener.connection, listener.connection.sessions
      ensures Valid() && depth.Value() == OnCallback(old(depth.Value()), orders, cb).value
      ensures SessionsKept()
      ensures cb.BookUpdateCb? ==> !depth.Changed()
      ensures IsReject(cb) ==> depth.Changed() == old(depth.Changed())
    {
      hide MapOf, Laid, StampedSide, Populated, OnCallback, Sending, Different;
      if cb.BookUpdateCb? {
        OthersDoNothing(depth.Value(), orders, cb);
        var depthChanged, bboChanged := OnOrderBookChange();
      } else {
        OnOrder(cb, orders);
      }
    }

    /** The connection has got no sessions it did not have. */
    twostate predicate SessionsKept()
      reads listener.connection
    {
      forall k {:trigger listener.connection.sessions[k]} :: 0 <= k < |listener.connection.sessions| ==>
        listener.connection.sessions[k] in old(listener.connection.sessions)
    }

    /** When the depth has changed, the listener is told before the change counts as shown: every
        session that is still connected gets one message made from what was last shown. Whoever is
        not told has missed nothing. */
    method OnOrderBookChange() returns (depthChanged: bool, bboChanged: bool)
      requires Valid()
      modifies depth`lastPublishedChange, depth`shownBids, depth`shownAsks, listener.connection,
               listener.connection.sessions
      ensures Valid() && depth.Value() == old(depth.Value()) && !depth.Changed()
      ensures depthChanged == old(depth.Changed())
      ensures depth.shownBids == Datas(depth.Slots(true)) && depth.shownAsks == Datas(depth.Slots(false))
      ensures !depthChanged ==> depth.shownBids == old(depth.shownBids) && depth.shownAsks == old(depth.shownAsks)
      ensures !bboChanged ==>
              depth.shownBids[0] == old(depth.shownBids)[0] && depth.shownAsks[0] == old(depth.shownAsks)[0]
      ensures SessionsKept()
      ensures listener.connection.sessions == if depthChanged then old(Live(listener.connection.sessions))
              else old(listener.connection.sessions)
      ensures forall s :: s in listener.connection.sessions ==>
        s.Out() == if depthChanged then old(listener.After(s.Out(), symbol, depth)) else old(s.Out())
    {
      hide MapOf, Laid, Populated, Sending, Different, Changed, Live, Datas, StampedSide;
      bboChanged := false;
      depthChanged := depth.Changed();
      assert depth.Slots(true)[0] == depth.levels[0] && depth.Slots(false)[0] == depth.levels[depth.SIZE];
      if depthChanged {
        listener.OnDepthChange(symbol, depth);
        bboChanged := depth.levels[0].ChangedSince(depth.lastPublishedChange) ||
            depth.levels[depth.SIZE].ChangedSince(depth.lastPublishedChange);
        BestUnchanged(depth.Slots(true), depth.shownBids, depth.lastPublishedChange, depth.lastChange);
        BestUnchanged(depth.Slots(false), depth.shownAsks, depth.lastPublishedChange, depth.lastChange);
        depth.Published();
      } else {
        AllUnchanged(depth.Slots(true), depth.shownBids, depth.lastChange);
        AllUnchanged(depth.Slots(false), depth.shownAsks, depth.lastChange);
      }
    }
  }
}
