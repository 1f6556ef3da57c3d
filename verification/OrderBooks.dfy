/** The order book object: its fields, and the loops that change them in place, each shown
    to compute what the matching functions say (src/book/order_book.h). */
module OrderBooks {
  import opened Prices
  import opened Orders
  import opened Books
  import opened Matching
  import opened Faces
  import opened AllOrNone
  import opened Accounting
  import opened BookRuns
  import opened Cascade
  import opened MatchSteps
  import opened BookClasses
  import opened DepthSpec
  import opened Requests
  import opened System
  import opened RequestRuns
  import opened RequestInvariants
  import opened BookRequests

  class OrderBook {
    const bids: TrackerMap
    const asks: TrackerMap
    const stopBids: TrackerMap
    const stopAsks: TrackerMap
    var pendingOrders: seq<Tracker>
    var marketPrice: nat
    var callbacks: seq<Callback>
    /** The application's orders by address, as values. */
    var orders: OrderMap
    var handlingCallbacks: bool
    /** What was cancelled or dropped. */
    ghost var retired: seq<Tracker>
    /** Every callback that was delivered; a derived book is handed each of them. */
    var history: seq<Callback>

    ghost predicate Separate() {
      && bids != asks && bids != stopBids && bids != stopAsks
      && asks != stopBids && asks != stopAsks && stopBids != stopAsks
    }

    ghost function Stops(): StopBook
      reads this`marketPrice, this`pendingOrders, stopBids, stopAsks
    {
      StopBook(marketPrice, stopBids.nodes, stopAsks.nodes, pendingOrders)
    }

    ghost function Contents(): Book
      reads this`marketPrice, this`pendingOrders, bids, asks, stopBids, stopAsks
    {
      Book(bids.nodes, asks.nodes, Stops())
    }

    ghost function State(): Sys
      reads this, bids, asks, stopBids, stopAsks
    {
      Sys(Contents(), orders, retired, history)
    }

    /** Between two requests: every callback has been delivered, and the book is in order. */
    ghost predicate Ready()
      reads this, bids, asks, stopBids, stopAsks
    {
      Separate() && callbacks == [] && !handlingCallbacks && Inv(State())
    }

    constructor ()
      ensures Separate() && fresh(bids) && fresh(asks) && fresh(stopBids) && fresh(stopAsks)
      ensures State() == START && Ready()
    {
      bids := new TrackerMap();
      asks := new TrackerMap();
      stopBids := new TrackerMap();
      stopAsks := new TrackerMap();
      pendingOrders, marketPrice, callbacks, orders := [], 0, [], map[];
      handlingCallbacks, retired, history := false, [], [];
      StartHasInv();
    }

    // ---- Market price and stop orders ----

    method SetMarketPrice(price: nat)
      requires Separate()
      modifies this`marketPrice, this`pendingOrders, stopBids, stopAsks
      ensures Stops() == Matching.SetMarketPrice(old(Stops()), price)
    {
      var oldMarketPrice := marketPrice;
      marketPrice := price;
      if price > oldMarketPrice || oldMarketPrice == MARKET_ORDER_PRICE {
        // the price has gone up: check stop bids
        CheckStopOrders(true, price, stopBids);
      } else if price < oldMarketPrice || oldMarketPrice == MARKET_ORDER_PRICE {
        // the price has gone down: check stop asks
        CheckStopOrders(false, price, stopAsks);
      }
    }

    method CheckStopOrders(side: bool, price: nat, stops: TrackerMap)
      modifies this`pendingOrders, stops
      ensures var n := ReleaseCount(ComparablePrice(side, price), old(stops.nodes));
              && stops.nodes == old(stops.nodes)[n..]
              && pendingOrders == old(pendingOrders) + Trackers(old(stops.nodes)[..n])
    {
      var until := ComparablePrice(side, price);
      ghost var n := 0;
      while stops.nodes != [] && !until.Less(stops.nodes[0].key)
        invariant n <= |old(stops.nodes)| && stops.nodes == old(stops.nodes)[n..]
        invariant pendingOrders == old(pendingOrders) + Trackers(old(stops.nodes)[..n])
        invariant ReleaseCount(until, old(stops.nodes)) == n + ReleaseCount(until, stops.nodes)
        decreases |stops.nodes|
      {
        assert Trackers(old(stops.nodes)[..n + 1]) == Trackers(old(stops.nodes)[..n]) + [stops.nodes[0].tracker];
        pendingOrders := pendingOrders + [stops.nodes[0].tracker];
        stops.EraseAt(0);
        n := n + 1;
      }
    }

    // ---- Trades ----

    method FindCrossPrice(inbound: Tracker, current: Tracker) returns (crossPrice: nat)
      ensures crossPrice == CrossPrice(orders, inbound.ptr, current.ptr, marketPrice)
    {
      crossPrice := PriceOf(orders, current.ptr);
      // a resting market order crosses at the inbound price
      if crossPrice == MARKET_ORDER_PRICE {
        crossPrice := PriceOf(orders, inbound.ptr);
      }
      if crossPrice == MARKET_ORDER_PRICE {
        crossPrice := marketPrice;
      }
    }

    /** The trackers are changed in place by the source, and returned here. */
    method CreateTrade(inbound: Tracker, current: Tracker, maxQuantity: nat)
        returns (inbound': Tracker, current': Tracker, fillQty: nat)
      requires Separate()
      modifies this`marketPrice, this`pendingOrders, this`callbacks, stopBids, stopAsks
      ensures var t := Matching.CreateTrade(orders, inbound, current, maxQuantity, old(Stops()));
              && inbound' == t.inbound && current' == t.current && fillQty == t.qty
              && Stops() == t.stops && callbacks == old(callbacks) + t.fills
    {
      hide Matching.SetMarketPrice, CrossPrice;
      inbound', current', fillQty := inbound, current, 0;
      var crossPrice := FindCrossPrice(inbound, current);
      if crossPrice == MARKET_ORDER_PRICE {
        // no price is available for this order
        return;
      }
      fillQty := Min(maxQuantity, Min(inbound.openQty, current.openQty));
      if fillQty > 0 {
        inbound' := inbound.(openQty := inbound.openQty - fillQty);
        current' := current.(openQty := current.openQty - fillQty);
        SetMarketPrice(crossPrice);
        callbacks := callbacks
            + [FillCb(inbound.ptr, current.ptr, fillQty, crossPrice, inbound'.openQty == 0, current'.openQty == 0)];
      }
    }

    /** Trade with the node at `pos`, and erase it if its order is filled: `next` is the node
        after it. */
    method TradeWithNode(inbound: Tracker, current: TrackerMap, pos: nat)
        returns (inbound': Tracker, traded: nat, next: nat, ghost t: Trade)
      requires Separate() && current in {bids, asks}
      requires pos < |current.nodes| && current.nodes[pos].tracker.openQty > 0
      modifies this`marketPrice, this`pendingOrders, this`callbacks, stopBids, stopAsks, current
      ensures t == Matching.CreateTrade(orders, inbound, old(current.nodes)[pos].tracker, inbound.openQty, old(Stops()))
      ensures inbound' == t.inbound && traded == t.qty && Stops() == t.stops && callbacks == old(callbacks) + t.fills
      ensures current.nodes == Settle(old(current.nodes), pos, t.current)
      ensures next == (if t.current.openQty == 0 then pos else pos + 1) <= |current.nodes|
      ensures current.nodes[next..] == old(current.nodes)[pos + 1..]
    {
      t := Matching.CreateTrade(orders, inbound, current.nodes[pos].tracker, inbound.openQty, Stops());
      var after: Tracker;
      inbound', after, traded := CreateTrade(inbound, current.nodes[pos].tracker, inbound.openQty);
      if traded > 0 && after.openQty == 0 {
        current.EraseAt(pos);
        next := pos;
      } else {
        current.SetTracker(pos, after);
        next := pos + 1;
      }
      SettleNode(old(current.nodes), pos, after);
    }

    // ---- Matching a regular order ----

    method MatchRegularOrder(inbound: Tracker, inboundPrice: nat, current: TrackerMap)
      returns (inbound': Tracker, deferredAons: seq<OrderId>, matched: bool)
      requires Separate() && current in {bids, asks} && AllOpen(current.nodes)
      modifies this`marketPrice, this`pendingOrders, this`callbacks, stopBids, stopAsks, current
      ensures var m := MatchRegular(orders, inbound, inboundPrice, [], old(current.nodes), old(Stops()));
              && m == Match(inbound', current.nodes, Stops(), deferredAons, m.fills, matched)
              && callbacks == old(callbacks) + m.fills
    {
      hide Matching.MatchRegular, Matching.CreateTrade, Matching.SetMarketPrice, RegularFrom, Continues, Settle,
           AllOpen;
      ghost var m := MatchRegular(orders, inbound, inboundPrice, [], current.nodes, Stops());
      ghost var fills: seq<Callback> := [];
      inbound', deferredAons, matched := inbound, [], false;
      var inboundQty: nat := inbound.openQty;
      var pos: nat := 0;
      RegularStart(orders, inbound, inboundPrice, current.nodes, Stops());
      assert current.nodes[0..] == current.nodes;
      while Ongoing(inbound', inboundPrice, current.nodes, pos)
        invariant pos <= |current.nodes| && inboundQty == inbound'.openQty
        invariant AllOpen(current.nodes[pos..]) && callbacks == old(callbacks) + fills
        invariant Continues(m, deferredAons, fills, matched,
                            RegularFrom(orders, inbound', inboundPrice, current.nodes, pos, Stops()))
        decreases |current.nodes| - pos
      {
        var entry := current.nodes[pos];
        OpenTail(current.nodes, pos);
        if entry.tracker.aon && inboundQty < entry.tracker.openQty {
          // not enough to satisfy the resting order's condition
          RegularPass(m, deferredAons, fills, matched, orders, inbound', inboundPrice, current.nodes, pos, Stops());
          deferredAons := deferredAons + [entry.tracker.ptr];
          pos := pos + 1;
        } else {
          RegularTrade(m, deferredAons, fills, matched, orders, inbound', inboundPrice, current.nodes, pos, Stops());
          var traded: nat;
          ghost var t: Trade;
          inbound', traded, pos, t := TradeWithNode(inbound', current, pos);
          fills := fills + t.fills;
          matched := matched || traded > 0;
          inboundQty := inboundQty - traded;
        }
      }
      RegularEnd(m, deferredAons, fills, matched, orders, inbound', inboundPrice, current.nodes, pos, Stops());
    }

    // ---- Trading with deferred orders ----

    /** First pass: the quantity each deferred order would give. */
    method ProposeFills(deferredMatches: seq<OrderId>, maxQty: nat, current: TrackerMap, cut: nat)
        returns (fills: array<nat>, foundQty: nat)
      requires cut <= |current.nodes|
      requires forall i :: 0 <= i < |deferredMatches| ==> IndexOf(current.nodes[..cut], deferredMatches[i]) < cut
      ensures fresh(fills) && fills[..] == Plan(deferredMatches, current.nodes[..cut], maxQty)
      ensures foundQty == PlanQty(deferredMatches, current.nodes[..cut], maxQty)
    {
      hide Plan, PlanQty, Proposed;
      ghost var side := current.nodes[..cut];
      fills := new nat[|deferredMatches|](_ => 0);
      foundQty := 0;
      var index := 0;
      ProposedStart(deferredMatches, side, maxQty, fills[..]);
      while foundQty < maxQty && index < |deferredMatches|
        invariant index <= |deferredMatches| && foundQty <= maxQty
        invariant Proposed(deferredMatches, side, maxQty, index, fills[..], foundQty)
      {
        IndexOfAppend(side, current.nodes[cut..], deferredMatches[index]);
        assert side + current.nodes[cut..] == current.nodes;
        var tracker := current.nodes[IndexOf(current.nodes, deferredMatches[index])].tracker;
        var qty: nat := tracker.openQty;
        // would this go over the limit?
        if foundQty + qty > maxQty {
          if tracker.aon {
            qty := 0;
          } else {
            qty := maxQty - foundQty;
          }
        }
        ProposedStep(deferredMatches, side, maxQty, index, fills[..], foundQty, qty);
        foundQty := foundQty + qty;
        ghost var was := fills[..];
        fills[index] := qty;
        assert fills[..] == was[index := qty];
        index := index + 1;
      }
      ProposedEnd(deferredMatches, side, maxQty, index, fills[..], foundQty);
    }

    /** The place of the entry at `cut` moves down with every node erased before it. */
    method TryCreateDeferredTrades(inbound: Tracker, deferredMatches: seq<OrderId>, maxQty: nat, minQty: nat,
                                   current: TrackerMap, cut: nat, ghost price: nat)
      returns (inbound': Tracker, traded: nat, cut': nat)
      requires Separate() && current in {bids, asks}
      requires CanTrade(orders, inbound, deferredMatches, current.nodes, cut, maxQty, Stops(), price)
      modifies this`marketPrice, this`pendingOrders, this`callbacks, stopBids, stopAsks, current
      ensures var d := TryDeferred(orders, inbound, deferredMatches, maxQty, minQty, old(current.nodes[..cut]),
                                   old(Stops()));
              && cut' <= |current.nodes| && d == Deferred(inbound', current.nodes[..cut'], Stops(), traded, d.fills)
              && callbacks == old(callbacks) + d.fills
      ensures current.nodes[cut'..] == old(current.nodes[cut..])
    {
      hide Matching.CreateTrade, Matching.SetMarketPrice, CanTrade, Settle, PlanQty, ExecPlan, Plan, SecondPass,
           IndexOf;
      HeldAreBehind(orders, inbound, deferredMatches, current.nodes, cut, maxQty, Stops(), price);
      ghost var d := ExecPlan(orders, inbound, deferredMatches, current.nodes[..cut], maxQty, Stops());
      ghost var emitted: seq<Callback> := [];
      inbound', traded, cut' := inbound, 0, cut;
      var fills, foundQty := ProposeFills(deferredMatches, maxQty, current, cut);
      if minQty <= foundQty <= maxQty {
        var index := 0;
        ghost var left, plan := maxQty, fills[..];
        SecondPassStarts(orders, inbound, deferredMatches, plan, current.nodes, cut, maxQty, Stops(), price);
        while traded < foundQty && index < |deferredMatches|
          invariant index <= |deferredMatches| && cut' <= |current.nodes| && fills[..] == plan
          invariant current.nodes[cut'..] == old(current.nodes[cut..]) && callbacks == old(callbacks) + emitted
          invariant SecondPass(orders, inbound', deferredMatches, index, plan, current.nodes, cut', left, Stops(),
                               price, d, traded, emitted, foundQty)
        {
          var k := IndexOf(current.nodes, deferredMatches[index]);
          NextIsBehind(orders, inbound', deferredMatches, index, plan, current.nodes, cut', left, Stops(), price, d,
                       traded, emitted, foundQty);
          SecondPassSteps(orders, inbound', deferredMatches, index, plan, current.nodes, cut', left, Stops(), price, d,
                          traded, emitted, foundQty, k,
                          Matching.CreateTrade(orders, inbound', current.nodes[k].tracker, plan[index], Stops()));
          var qty: nat;
          ghost var t: Trade;
          inbound', qty, cut', t := TradeWithDeferred(inbound', current, k, fills[index], cut');
          traded := traded + qty;
          left := left - plan[index];
          emitted := emitted + t.fills;
          index := index + 1;
        }
        SecondPassEnds(orders, inbound', deferredMatches, index, plan, current.nodes, cut', left, Stops(), price, d,
                       traded, emitted, foundQty);
      }
    }

    method TradeWithDeferred(inbound: Tracker, current: TrackerMap, k: nat, maxQuantity: nat, cut: nat)
        returns (inbound': Tracker, traded: nat, cut': nat, ghost t: Trade)
      requires Separate() && current in {bids, asks} && k < cut <= |current.nodes|
      modifies this`marketPrice, this`pendingOrders, this`callbacks, stopBids, stopAsks, current
      ensures t == Matching.CreateTrade(orders, inbound, old(current.nodes)[k].tracker, maxQuantity, old(Stops()))
      ensures inbound' == t.inbound && traded == t.qty && Stops() == t.stops && callbacks == old(callbacks) + t.fills
      ensures current.nodes == Settle(old(current.nodes), k, t.current)
      ensures cut' == if t.current.openQty == 0 then cut - 1 else cut
    {
      t := Matching.CreateTrade(orders, inbound, current.nodes[k].tracker, maxQuantity, Stops());
      var after: Tracker;
      inbound', after, traded := CreateTrade(inbound, current.nodes[k].tracker, maxQuantity);
      if after.openQty == 0 {
        current.EraseAt(k);
        cut' := cut - 1;
      } else {
        current.SetTracker(k, after);
        cut' := cut;
      }
    }

    // ---- Matching an all-or-none order ----

    method MatchAonOrder(inbound: Tracker, inboundPrice: nat, current: TrackerMap)
      returns (inbound': Tracker, deferredAons: seq<OrderId>, matched: bool)
      requires Separate() && current in {bids, asks} && Clean(current.nodes)
      requires AonSafe(orders, inbound, inboundPrice, [], current.nodes, [], 0, Stops())
      modifies this`marketPrice, this`pendingOrders, this`callbacks, stopBids, stopAsks, current
      ensures var m := MatchAon(orders, inbound, inbound.openQty, inboundPrice, [], old(current.nodes), [], 0,
                                old(Stops()));
              && m == Match(inbound', current.nodes, Stops(), deferredAons, m.fills, matched)
              && callbacks == old(callbacks) + m.fills
    {
      hide Matching.MatchAon, Matching.SetMarketPrice, AonState, Clean, TryDeferred, PastAon, Past;
      ghost var m := MatchAon(orders, inbound, inbound.openQty, inboundPrice, [], current.nodes, [], 0, Stops());
      ghost var fills: seq<Callback> := [];
      inbound', deferredAons, matched := inbound, [], false;
      var deferredQty: nat, deferredMatches: seq<OrderId>, pos: nat := 0, [], 0;
      AonStateStarts(orders, inbound, inboundPrice, current.nodes, Stops());
      while Ongoing(inbound', inboundPrice, current.nodes, pos)
        invariant pos <= |current.nodes| && callbacks == old(callbacks) + fills
        invariant AonState(orders, m, inbound', inboundPrice, current.nodes, pos, deferredMatches, deferredQty, Stops(),
                           deferredAons, fills, matched)
        decreases inbound'.openQty, |current.nodes| - pos
      {
        var entry := current.nodes[pos].tracker;
        if entry.aon && inbound'.openQty < entry.openQty {
          // the inbound order cannot satisfy the resting order's condition
          AonStatePasses(orders, m, inbound', inboundPrice, current.nodes, pos, deferredMatches, deferredQty, Stops(),
                         deferredAons, fills, matched);
          deferredAons := deferredAons + [entry.ptr];
          pos := pos + 1;
        } else if entry.openQty + deferredQty < inbound'.openQty {
          // not enough to satisfy the inbound order yet: remember the resting order
          AonStateHolds(orders, m, inbound', inboundPrice, current.nodes, pos, deferredMatches, deferredQty, Stops(),
                        deferredAons, fills, matched);
          deferredQty := deferredQty + entry.openQty;
          deferredMatches := deferredMatches + [entry.ptr];
          pos := pos + 1;
        } else {
          ghost var trades: seq<Callback>;
          var filled: bool;
          inbound', pos, filled, trades := TryToFillAon(inbound', inboundPrice, current, pos, deferredMatches,
                                                        deferredQty, m, deferredAons, fills, matched);
          matched := matched || filled;
          fills := fills + trades;
        }
      }
      AonStateEnds(orders, m, inbound', inboundPrice, current.nodes, pos, deferredMatches, deferredQty, Stops(),
                   deferredAons, fills, matched);
    }

    /** The deferred orders are tried first, then the resting order at `pos`. */
    method TryToFillAon(inbound: Tracker, inboundPrice: nat, current: TrackerMap, pos: nat,
                        deferredMatches: seq<OrderId>, deferredQty: nat,
                        ghost m: Match, ghost deferredAons: seq<OrderId>, ghost fills: seq<Callback>,
                            ghost matched: bool)
      returns (inbound': Tracker, pos': nat, filled: bool, ghost trades: seq<Callback>)
      requires Separate() && current in {bids, asks} && MightDo(inbound, inboundPrice, current.nodes, pos, deferredQty)
      requires AonState(orders, m, inbound, inboundPrice, current.nodes, pos, deferredMatches, deferredQty, Stops(),
                        deferredAons, fills, matched)
      modifies this`marketPrice, this`pendingOrders, this`callbacks, stopBids, stopAsks, current
      ensures pos' <= |current.nodes| && callbacks == old(callbacks) + trades
      ensures AonState(orders, m, inbound', inboundPrice, current.nodes, pos', deferredMatches, deferredQty, Stops(),
                       deferredAons, fills + trades, matched || filled)
      ensures if filled then inbound'.openQty == 0
              else inbound' == inbound && current.nodes == old(current.nodes) && pos' == pos + 1
    {
      hide Matching.MatchAon, Matching.SetMarketPrice, Matching.CreateTrade, Clean, TryDeferred, Continues, CanTrade,
           PastAon;
      var entry := current.nodes[pos];
      var maxQty, minQty := MaxFrom(entry.tracker, inbound.openQty), MinFrom(entry.tracker, inbound.openQty);
      ghost var nodes, sb := current.nodes, Stops();
      ghost var d := TryDeferred(orders, inbound, deferredMatches, maxQty, minQty, nodes[..pos], sb);
      ghost var t := Matching.CreateTrade(orders, d.inbound, entry.tracker, d.inbound.openQty, d.stops);
      AonStateTries(orders, m, inbound, inboundPrice, nodes, pos, deferredMatches, deferredQty, sb, deferredAons, fills,
                    matched, d, t);
      var traded: nat;
      inbound', traded, pos' := TryCreateDeferredTrades(inbound, deferredMatches, maxQty, minQty, current, pos,
                                                        inboundPrice);
      trades := d.fills;
      filled := false;
      PassNode(nodes, pos);
      RejoinNodes(current.nodes, pos', nodes, pos);
      if Enough(entry.tracker, inbound.openQty, traded) {
        var qty: nat;
        inbound', qty, pos' := TradeWithFound(inbound', current, pos');
        filled := traded + qty > 0;
        trades := d.fills + t.fills;
        Regrouped(old(callbacks), d.fills, t.fills);
        Regrouped(fills, [], []);
      } else {
        pos' := pos' + 1;
        Regrouped(fills, [], []);
      }
    }

    /** An all-or-none order that trades is gone; another one when nothing is left of it. */
    method TradeWithFound(inbound: Tracker, current: TrackerMap, pos: nat)
        returns (inbound': Tracker, traded: nat, pos': nat)
      requires Separate() && current in {bids, asks} && pos < |current.nodes| && current.nodes[pos].tracker.openQty > 0
      modifies this`marketPrice, this`pendingOrders, this`callbacks, stopBids, stopAsks, current
      ensures var e := old(current.nodes)[pos];
              var t := Matching.CreateTrade(orders, inbound, e.tracker, inbound.openQty, old(Stops()));
              && inbound' == t.inbound && traded == t.qty && Stops() == t.stops
              && callbacks == old(callbacks) + t.fills
              && current.nodes == PastAon(old(current.nodes)[..pos], e, t) + old(current.nodes)[pos + 1..]
      ensures pos' <= |current.nodes|
      ensures traded == 0 ==> current.nodes == old(current.nodes) && pos' == pos + 1
    {
      hide Matching.SetMarketPrice;
      var entry := current.nodes[pos].tracker;
      var after: Tracker;
      inbound', after, traded := CreateTrade(inbound, entry, inbound.openQty);
      if if entry.aon then traded > 0 else after.openQty == 0 {
        current.EraseAt(pos);
        pos' := pos;
      } else {
        current.SetTracker(pos, after);
        pos' := pos + 1;
      }
      ReplaceNode(old(current.nodes), pos, old(current.nodes)[pos].(tracker := after));
    }

    method MatchOrder(inbound: Tracker, inboundPrice: nat, current: TrackerMap)
      returns (inbound': Tracker, deferredAons: seq<OrderId>, matched: bool, ghost m: Match)
      requires Separate() && current in {bids, asks} && Clean(current.nodes)
      requires inbound.aon ==> AonSafe(orders, inbound, inboundPrice, [], current.nodes, [], 0, Stops())
      modifies this`marketPrice, this`pendingOrders, this`callbacks, stopBids, stopAsks, current
      ensures m == Matching.MatchOrder(orders, inbound, inboundPrice, old(current.nodes), old(Stops()))
      ensures m == Match(inbound', current.nodes, Stops(), deferredAons, m.fills, matched)
      ensures callbacks == old(callbacks) + m.fills
    {
      hide MatchAon, MatchRegular, AonSafe;
      m := Matching.MatchOrder(orders, inbound, inboundPrice, current.nodes, Stops());
      if inbound.aon {
        inbound', deferredAons, matched := MatchAonOrder(inbound, inboundPrice, current);
      } else {
        inbound', deferredAons, matched := MatchRegularOrder(inbound, inboundPrice, current);
      }
    }

    // ---- Adding an order ----

    /** Deferred all-or-none orders are matched again, now against the other side; the view
        `v` is what the book is in order for. */
    method CheckDeferredAons(aons: seq<OrderId>, deferredTrackers: TrackerMap, marketTrackers: TrackerMap,
                             ghost v: View, ghost buySide: bool)
      returns (result: bool, ghost c: Recheck)
      requires Separate() && deferredTrackers in {bids, asks} && marketTrackers in {bids, asks}
      requires deferredTrackers != marketTrackers
      requires v.env == orders && PairOk(v, deferredTrackers.nodes, marketTrackers.nodes, buySide, Stops())
      modifies this`marketPrice, this`pendingOrders, this`callbacks, stopBids, stopAsks, deferredTrackers,
               marketTrackers
      ensures c == CheckDeferred(orders, aons, old(deferredTrackers.nodes), old(marketTrackers.nodes), old(Stops()))
      ensures c == Recheck(deferredTrackers.nodes, marketTrackers.nodes, Stops(), c.fills, result)
      ensures callbacks == old(callbacks) + c.fills
    {
      hide Matching.MatchOrder, PairOk, Clean, Priced, Settle;
      c := CheckDeferred(orders, aons, deferredTrackers.nodes, marketTrackers.nodes, Stops());
      ghost var fills: seq<Callback> := [];
      result := false;
      var index := 0;
      while index < |aons|
        invariant index <= |aons| && callbacks == old(callbacks) + fills
        invariant PairOk(v, deferredTrackers.nodes, marketTrackers.nodes, buySide, Stops())
        invariant RecheckContinues(c, fills, result,
                                   CheckDeferred(orders, aons[index..], deferredTrackers.nodes, marketTrackers.nodes,
                                                 Stops()))
      {
        var k := IndexOf(deferredTrackers.nodes, aons[index]);
        assert aons[index..][0] == aons[index] && aons[index..][1..] == aons[index + 1..];
        if k < |deferredTrackers.nodes| {
          ghost var more: seq<Callback>;
          result, more := MatchDeferred(deferredTrackers, marketTrackers, k, result, v, buySide, aons[index..], c,
                                        fills);
          Regrouped(old(callbacks), fills, more);
          fills := fills + more;
        }
        index := index + 1;
      }
      Regrouped(fills, [], []);
    }

    method MatchDeferred(deferredTrackers: TrackerMap, marketTrackers: TrackerMap, k: nat, result: bool, ghost v: View,
                         ghost buySide: bool,
                         ghost ids: seq<OrderId>, ghost c: Recheck, ghost fills: seq<Callback>)
      returns (result': bool, ghost more: seq<Callback>)
      requires Separate() && deferredTrackers in {bids, asks} && marketTrackers in {bids, asks}
      requires deferredTrackers != marketTrackers
      requires v.env == orders && PairOk(v, deferredTrackers.nodes, marketTrackers.nodes, buySide, Stops())
      requires ids != [] && k == IndexOf(deferredTrackers.nodes, ids[0]) < |deferredTrackers.nodes|
      requires RecheckContinues(c, fills, result, CheckDeferred(orders, ids, deferredTrackers.nodes,
                                                                marketTrackers.nodes, Stops()))
      modifies this`marketPrice, this`pendingOrders, this`callbacks, stopBids, stopAsks, deferredTrackers,
               marketTrackers
      ensures PairOk(v, deferredTrackers.nodes, marketTrackers.nodes, buySide, Stops())
      ensures callbacks == old(callbacks) + more
      ensures RecheckContinues(c, fills + more, result',
                               CheckDeferred(orders, ids[1..], deferredTrackers.nodes, marketTrackers.nodes, Stops()))
    {
      hide Matching.MatchOrder, PairOk, Clean, Priced, Matching.CheckDeferred, RecheckContinues;
      var entry := deferredTrackers.nodes[k];
      ghost var aons, market, sb := deferredTrackers.nodes, marketTrackers.nodes, Stops();
      RestingMayMatch(v, aons, market, buySide, sb, k);
      var tracker: Tracker, ignored: seq<OrderId>, matched: bool;
      ghost var m: Match;
      tracker, ignored, matched, m := MatchOrder(entry.tracker, entry.key.price, marketTrackers);
      result' := result || matched;
      if tracker.openQty == 0 {
        deferredTrackers.EraseAt(k);
      } else {
        deferredTrackers.SetTracker(k, tracker);
      }
      more := m.fills;
      RecheckMatches(c, fills, result, v, ids, aons, market, buySide, sb, k, m);
    }

    /** Match, put the rest in the book, and see whether that helps a deferred order. */
    method AddOrder(inbound: Tracker, orderPrice: nat, ghost v: View)
        returns (inbound': Tracker, matched: bool, ghost a: Added)
      requires Separate() && v.env == orders && Submittable(v, Contents(), inbound)
      requires orderPrice == PriceOf(v.denv, inbound.ptr)
      modifies this`marketPrice, this`pendingOrders, this`callbacks, bids, asks, stopBids, stopAsks
      ensures a == Matching.AddOrder(orders, old(Contents()), inbound, orderPrice)
      ensures Contents() == a.book && inbound' == a.inbound && matched == a.matched
      ensures callbacks == old(callbacks) + a.fills
    {
      hide Matching.MatchOrder, Matching.CheckDeferred, PairOk, Submittable, Clean, Priced;
      a := Matching.AddOrder(orders, Contents(), inbound, orderPrice);
      var buy := IsBuy(orders, inbound.ptr);
      var own, opposite := if buy then bids else asks, if buy then asks else bids;
      ghost var b := Contents();
      SubmittableMatches(v, b, inbound);
      var deferredAons: seq<OrderId>;
      ghost var m: Match;
      inbound', deferredAons, matched, m := MatchOrder(inbound, orderPrice, opposite);
      if inbound'.openQty != 0 && !inbound'.ioc {
        FirstMatchPairs(v, b, inbound, m);
        own.Emplace(ComparablePrice(buy, orderPrice), inbound');
        var rechecked: bool;
        ghost var c: Recheck;
        rechecked, c := CheckDeferredAons(deferredAons, opposite, own, v, !buy);
        matched := matched || rechecked;
        Regrouped(old(callbacks), m.fills, c.fills);
      }
    }

    method SubmitOrder(inbound: Tracker, ghost v: View) returns (inbound': Tracker, matched: bool, ghost a: Added)
      requires Separate() && v.env == orders && Submittable(v, Contents(), inbound)
      requires PriceOf(orders, inbound.ptr) == PriceOf(v.denv, inbound.ptr)
      modifies this`marketPrice, this`pendingOrders, this`callbacks, bids, asks, stopBids, stopAsks
      ensures a == Matching.AddOrder(orders, old(Contents()), inbound, PriceOf(orders, inbound.ptr))
      ensures Contents() == a.book && inbound' == a.inbound && matched == a.matched
      ensures callbacks == old(callbacks) + a.fills
    {
      hide Matching.AddOrder, Submittable;
      inbound', matched, a := AddOrder(inbound, PriceOf(orders, inbound.ptr), v);
    }

    // ---- Stop orders ----

    /** A stop order is held back while the market price is a better deal. */
    method AddStopOrder(tracker: Tracker) returns (isStopped: bool)
      requires Separate() && tracker.ptr in orders && orders[tracker.ptr].stopPrice != 0
      modifies stopBids, stopAsks
      ensures isStopped == Requests.Held(orders, tracker.ptr, marketPrice)
      ensures Contents() == if isStopped then HoldStop(orders, old(Contents()), tracker) else old(Contents())
    {
      var isBuy := orders[tracker.ptr].isBuy;
      var key := ComparablePrice(isBuy, orders[tracker.ptr].stopPrice);
      isStopped := key.LessPrice(marketPrice);
      if isStopped {
        if isBuy {
          stopBids.Emplace(key, tracker);
        } else {
          stopAsks.Emplace(key, tracker);
        }
      }
    }

    /** One round: all orders that were pending are submitted. */
    method SubmitPendingOrders(ghost v: View) returns (ghost s: Submitted)
      requires Separate() && v.env == orders && QueueOk(v, Contents(), [])
      modifies this`marketPrice, this`pendingOrders, this`callbacks, bids, asks, stopBids, stopAsks
      ensures s == SubmitAll(orders, Emptied(old(Contents())), old(pendingOrders))
      ensures Contents() == s.book && callbacks == old(callbacks) + s.fills
    {
      hide Matching.AddOrder, QueueOk, Submittable;
      EmptiedIsQueue(v, Contents());
      var pending := pendingOrders;
      pendingOrders := [];
      s := SubmitAll(orders, Contents(), pending);
      ghost var fills: seq<Callback> := [];
      ghost var dropped: seq<Tracker> := [];
      var pos := 0;
      while pos < |pending|
        invariant pos <= |pending| && callbacks == old(callbacks) + fills
        invariant QueueOk(v, Contents(), pending[pos..])
        invariant RoundContinues(s, fills, dropped, SubmitAll(orders, Contents(), pending[pos..]))
      {
        ghost var b := Contents();
        assert pending[pos..][0] == pending[pos] && pending[pos..][1..] == pending[pos + 1..];
        HeadIsSubmittable(v, b, pending[pos..]);
        var inbound, matched;
        ghost var a: Added;
        inbound, matched, a := SubmitOrder(pending[pos], v);
        RoundSubmits(s, fills, dropped, v, b, pending[pos..], a);
        Regrouped(old(callbacks), fills, a.fills);
        fills, dropped := fills + a.fills, dropped + a.dropped;
        pos := pos + 1;
      }
      Regrouped(fills, [], []);
    }

    /** Whatever a request has released is submitted, round after round. */
    method HandlePendingOrders(ghost v: View) returns (ghost r: Submitted)
      requires Separate() && v.env == orders && QueueOk(v, Contents(), [])
      modifies this`marketPrice, this`pendingOrders, this`callbacks, bids, asks, stopBids, stopAsks
      ensures r == SubmitPending(orders, old(Contents()))
      ensures Contents() == r.book && callbacks == old(callbacks) + r.fills
    {
      hide Matching.SubmitAll, QueueOk;
      r := SubmitPending(orders, Contents());
      ghost var fills: seq<Callback> := [];
      ghost var dropped: seq<Tracker> := [];
      while pendingOrders != []
        invariant callbacks == old(callbacks) + fills
        invariant QueueOk(v, Contents(), [])
        invariant RoundContinues(r, fills, dropped, SubmitPending(orders, Contents()))
        decreases Contents().stops.Load()
      {
        ghost var b := Contents();
        ghost var s := SubmitPendingOrders(v);
        CascadeContinues(r, fills, dropped, v, b, s);
        Regrouped(old(callbacks), fills, s.fills);
        fills, dropped := fills + s.fills, dropped + s.dropped;
      }
      Regrouped(fills, [], []);
    }

    // ---- Callbacks ----

    /** What the simple order book does with a callback. */
    method PerformCallback(cb: Callback)
      modifies this`orders
      ensures orders == ApplyCallback(old(orders), cb)
    {
      match cb
      case AcceptCb(id, _) =>
        if id in orders {
          orders := orders[id := orders[id].Accept()];
        }
      case FillCb(id, matched, quantity, price, _, _) =>
        // the matched order first, then the inbound one
        var fillCost := quantity * price;
        if matched in orders {
          orders := orders[matched := orders[matched].Fill(quantity, fillCost)];
        }
        if id in orders {
          orders := orders[id := orders[id].Fill(quantity, fillCost)];
        }
      case CancelCb(id, _) =>
        if id in orders {
          orders := orders[id := orders[id].Cancel()];
        }
      case ReplaceCb(id, _, delta, newPrice) =>
        if id in orders {
          orders := orders[id := orders[id].Replace(delta, newPrice)];
        }
      case _ =>
    }

    /** Deliver all callbacks, unless a delivery is already going on. */
    method CallbackNow()
      modifies this`orders, this`callbacks, this`handlingCallbacks, this`history
      ensures handlingCallbacks == old(handlingCallbacks)
      ensures handlingCallbacks ==> callbacks == old(callbacks) && orders == old(orders) && history == old(history)
      ensures !handlingCallbacks ==>
              callbacks == [] && orders == ApplyAll(old(orders), old(callbacks)) &&
              history == old(history) + old(callbacks)
    {
      hide ApplyCallback;
      if !handlingCallbacks {
        handlingCallbacks := true;
        while callbacks != []
          invariant handlingCallbacks
          invariant (callbacks == old(callbacks) && orders == old(orders) && history == old(history))
                 || (callbacks == [] && orders == ApplyAll(old(orders), old(callbacks)) &&
                     history == old(history) + old(callbacks))
          decreases |callbacks|
        {
          var working := callbacks;
          callbacks := [];
          var i := 0;
          while i < |working|
            invariant i <= |working| && callbacks == [] && handlingCallbacks
            invariant ApplyAll(orders, working[i..]) == ApplyAll(old(orders), working)
            invariant history == old(history) + working[..i]
          {
            assert working[i..][0] == working[i] && working[i..][1..] == working[i + 1..];
            assert working[..i + 1] == working[..i] + [working[i]];
            PerformCallback(working[i]);
            history := history + [working[i]];
            i := i + 1;
          }
          assert working[..i] == working;
        }
        handlingCallbacks := false;
      }
    }

    // ---- Requests ----

    /** The end of a request: its callbacks are delivered, and what it gave up is put on record. */
    method DeliverAll(ghost s: Sys, ghost r: Request, ghost out: Outcome, ghost taken: seq<Tracker>)
      requires Separate() && !handlingCallbacks && State() == s.(book := out.book, orders := orders)
      requires callbacks == out.cbs
      requires Inv(s) && Proper(s, r) && Handle(s, r) == Deliver(s, orders, out, taken)
      modifies this`orders, this`callbacks, this`handlingCallbacks, this`history, this`retired
      ensures Ready() && State() == Handle(s, r)
    {
      hide Inv, ApplyAll, Handle, Proper;
      retired := retired + (taken + out.dropped);
      CallbackNow();
      HandleKeepsInv(s, r);
    }

    method FindOnMarket(id: OrderId) returns (found: bool, pos: nat)
      ensures pos == Requests.FindOnMarket(orders, Contents(), id)
      ensures found == (pos < |Contents().Side(IsBuy(orders, id))|)
    {
      var key := ComparablePrice(IsBuy(orders, id), PriceOf(orders, id));
      var sideMap := if IsBuy(orders, id) then bids else asks;
      pos := FindKey(sideMap.nodes, key, 0);
      while pos < |sideMap.nodes| && sideMap.nodes[pos].tracker.ptr != id
        invariant pos <= |sideMap.nodes|
        invariant FindFrom(sideMap.nodes, key, id, pos) == Requests.FindOnMarket(orders, Contents(), id)
        decreases |sideMap.nodes| - pos
      {
        if key.Less(sideMap.nodes[pos].key) {
          // the order would be before this one
          return false, |sideMap.nodes|;
        }
        pos := pos + 1;
      }
      found := pos < |sideMap.nodes|;
    }

    /** The application's order object exists before it is added; from here on it is known. */
    method Add(id: OrderId, order: Order, aon: bool, ioc: bool) returns (matched: bool)
      requires Ready() && Proper(State(), AddReq(id, order, aon, ioc))
      modifies this, bids, asks, stopBids, stopAsks
      ensures Ready() && State() == Handle(old(State()), AddReq(id, order, aon, ioc))
      ensures matched == Requests.Add(old(orders)[id := order], old(Contents()), id, aon, ioc).matched
    {
      hide Requests.Add, Inv, ApplyAll, Fresh, MeetsNone;
      ghost var s := State();
      orders := orders[id := order];
      ghost var out := Requests.Add(orders, Contents(), id, aon, ioc);
      if order.qty == 0 {
        matched := false;
        callbacks := callbacks + [RejectCb(id)];
        RejectedOutcome(s, id, order, aon, ioc);
      } else {
        IsFresh(s, id, order, aon, ioc);
        matched := AddToBook(id, order, Tracker(id, order.qty, aon, ioc), s);
      }
      assert callbacks == out.cbs && Contents() == out.book;
      DeliverAll(s, AddReq(id, order, aon, ioc), out, []);
    }

    method AddToBook(id: OrderId, order: Order, tracker: Tracker, ghost s: Sys) returns (matched: bool)
      requires Separate() && callbacks == [] && Fresh(s, id, order, tracker) && Contents() == s.book
      requires orders == s.orders[id := order]
      modifies this`marketPrice, this`pendingOrders, this`callbacks, bids, asks, stopBids, stopAsks
      ensures var out := Requests.Add(orders, old(Contents()), id, tracker.aon, tracker.ioc);
              Contents() == out.book && callbacks == out.cbs && matched == out.matched
    {
      hide Matching.AddOrder, SubmitPending, Submittable, QueueOk, Fresh, HoldStop, Requests.Add, Fair, Inv;
      ghost var v := Seen(orders, Contents(), [tracker]);
      ghost var b := Contents();
      matched := false;
      var acceptCbIndex := |callbacks|;
      callbacks := callbacks + [AcceptCb(id, 0)];
      assert callbacks == [AcceptCb(id, 0)];
      var isStopped := false;
      FreshOrder(s, id, order, tracker);
      if order.stopPrice != 0 {
        isStopped := AddStopOrder(tracker);
      }
      if isStopped {
        HeldIsQueue(s, id, order, tracker, Contents());
        ghost var r := HandlePendingOrders(v);
        HeldOutcome(s, id, order, tracker, r);
      } else {
        var inbound: Tracker;
        ghost var a: Added;
        inbound, matched, a := SubmitOrder(tracker, v);
        // tell the accept callback what was filled at once
        callbacks := callbacks[acceptCbIndex := AcceptCb(id, order.qty - inbound.openQty)];
        // cancel what is left of an immediate-or-cancel order
        if inbound.ioc && inbound.openQty != 0 {
          callbacks := callbacks + [CancelCb(id, 0)];
        }
        ghost var cbs := callbacks;
        ghost var r := HandlePendingOrders(v);
        SubmittedOutcome(s, id, order, tracker, a, r, cbs);
      }
      callbacks := callbacks + [BookUpdateCb];
    }

    method Cancel(id: OrderId)
      requires Ready() && Proper(State(), CancelReq(id))
      modifies this, bids, asks
      ensures Ready() && State() == Handle(old(State()), CancelReq(id))
    {
      hide Inv, ApplyAll, Requests.FindOnMarket;
      ghost var s := State();
      var isBuy := IsBuy(orders, id);
      var market := if isBuy then bids else asks;
      var found, pos := FindOnMarket(id);
      if found {
        var openQty := market.nodes[pos].tracker.openQty;
        market.EraseAt(pos);
        callbacks := callbacks + [CancelCb(id, openQty)];
        callbacks := callbacks + [BookUpdateCb];
      } else {
        callbacks := callbacks + [CancelRejectCb(id)];
      }
      assert callbacks == Requests.Cancel(s.orders, s.book, id).cbs &&
             Contents() == Requests.Cancel(s.orders, s.book, id).book;
      DeliverAll(s, CancelReq(id), Requests.Cancel(s.orders, s.book, id), Taken(s, id));
    }

    method Replace(id: OrderId, sizeDelta: int, newPrice: nat) returns (matched: bool)
      requires Ready() && Proper(State(), ReplaceReq(id, sizeDelta, newPrice))
      modifies this, bids, asks, stopBids, stopAsks
      ensures Ready() && State() == Handle(old(State()), ReplaceReq(id, sizeDelta, newPrice))
      ensures matched == Requests.Replace(old(orders), old(Contents()), id, sizeDelta, newPrice).matched
    {
      hide Inv, ApplyAll, Requests.FindOnMarket, ReplaceTaken, Recorded;
      ghost var s := State();
      ghost var out := Requests.Replace(s.orders, s.book, id, sizeDelta, newPrice);
      var price := if newPrice == 0 then orders[id].price else newPrice;
      var market := if IsBuy(orders, id) then bids else asks;
      var found, pos := FindOnMarket(id);
      if found {
        var tracker := market.nodes[pos].tracker;
        var delta: int := sizeDelta;
        RestingHasOpen(s, IsBuy(orders, id), pos);
        // not enough open for the reduction?
        if delta < 0 && tracker.openQty < -delta {
          delta := 0 - tracker.openQty;
          // the source rejects a reduction of nothing here; a resting order always has something open
          assert delta != 0;
        }
        matched := ReplaceInBook(market, pos, delta, price, s);
      } else {
        matched := false;
        callbacks := callbacks + [ReplaceRejectCb(id)];
      }
      assert callbacks == out.cbs && Contents() == out.book;
      DeliverAll(s, ReplaceReq(id, sizeDelta, newPrice), out, []);
    }

    method ReplaceInBook(market: TrackerMap, pos: nat, delta: int, price: nat, ghost s: Sys) returns (matched: bool)
      requires Separate() && callbacks == [] && State() == s && market in {bids, asks} && pos < |market.nodes|
      requires Replaceable(s, market == bids, pos, market.nodes[pos].tracker, delta, price)
      modifies this`marketPrice, this`pendingOrders, this`callbacks, bids, asks, stopBids, stopAsks
      ensures var out := ReplaceTaken(s.orders, Without(s.book, market == bids, pos), old(market.nodes)[pos].tracker,
                                      delta, price);
              Contents() == out.book && callbacks == out.cbs && matched == out.matched
    {
      hide Matching.AddOrder, SubmitPending, Submittable, QueueOk, Replaceable, ReplaceTaken, ReplaceView;
      var buy := market == bids;
      var tracker := market.nodes[pos].tracker;
      ghost var v := ReplaceView(s, tracker, delta, price);
      ghost var rest := Without(s.book, buy, pos);
      ReplaceViewIs(s, tracker, delta, price);
      matched := false;
      ReplaceableIsOpen(s, buy, pos, tracker, delta, price);
      callbacks := callbacks + [ReplaceCb(tracker.ptr, tracker.openQty, delta, price)];
      assert callbacks == [ReplaceCb(tracker.ptr, tracker.openQty, delta, price)];
      var newOpenQty := tracker.openQty + delta;
      if newOpenQty == 0 {
        // the order is closed: nothing is open any more
        callbacks := callbacks + [CancelCb(tracker.ptr, 0)];
        market.EraseAt(pos);
        assert Contents() == rest;
        EmptiedIsReady(s, buy, pos, tracker, delta, price);
        ghost var r := HandlePendingOrders(v);
        EmptiedOutcome(s.orders, rest, tracker, delta, price, r);
      } else {
        // match it again: its price or its size may have changed
        market.EraseAt(pos);
        assert Contents() == rest;
        ResubmittedIsReady(s, buy, pos, tracker, delta, price);
        var inbound: Tracker;
        ghost var a: Added;
        inbound, matched, a := AddOrder(tracker.(openQty := newOpenQty), price, v);
        ghost var r := HandlePendingOrders(v);
        ResubmittedOutcome(s.orders, rest, tracker, delta, price, a, r);
      }
      callbacks := callbacks + [BookUpdateCb];
    }
  }
}
