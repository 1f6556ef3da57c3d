/** What the invariant means for the users of the book, in every reachable state. */
module Results {
  import opened Prices
  import opened Orders
  import opened Books
  import opened Matching
  import opened Faces
  import opened Accounting
  import opened BookRuns
  import opened Trades
  import opened Requests
  import DepthSpec
  import opened System
  import opened RequestRuns
  import opened RequestInvariants

  /** Every resting order's application order shows it as it is: accepted, on its side, at
      its key's price, with exactly the tracker's quantity open. */
  lemma RestingMirrorsOrder(s: Sys, buy: bool, k: nat)
    requires Inv(s) && k < |s.book.Side(buy)|
    ensures var e := s.book.Side(buy)[k];
            && e.tracker.ptr in s.orders
            && var o := s.orders[e.tracker.ptr];
            && o.isBuy == buy && o.price == e.key.price && o.state == Accepted
            && o.OpenQty() == e.tracker.openQty > 0
            && !e.tracker.ioc
  {
    var t := s.book.Side(buy)[k].tracker;
    assert Resting(Seen(s.orders, s.book), s.book.Side(buy)[k], buy);
    TakenIsPlaced(s, buy, k, t, Without(s.book, buy, k));
    TakenIsMirrored(s, buy, k, t, Without(s.book, buy, k));
  }

  /** No resting all-or-none order has ever been filled, not even in part. */
  lemma RestingAonNeverFilled(s: Sys, buy: bool, k: nat)
    requires Inv(s) && k < |s.book.Side(buy)| && s.book.Side(buy)[k].tracker.aon
    ensures FillsOf(s.history, s.book.Side(buy)[k].tracker.ptr) == 0
  {
    var t := s.book.Side(buy)[k].tracker;
    TakenIsMirrored(s, buy, k, t, Without(s.book, buy, k));
  }

  /** What an order asked for, replacements included, is what it has open, what its fills
      add up to, and what was cancelled or dropped. */
  lemma QuantityConserved(s: Sys, id: OrderId)
    requires Inv(s) && id in s.orders
    ensures s.orders[id].qty == BookSum(OpenOf(id), s.book) + FillsOf(s.history, id) + Sum(OpenOf(id), s.retired)
  {
    PlacedAt(s.orders, s.book, [], s.retired, id, 0);
  }

  lemma {:induction false} VolumesOfPairs(orders: OrderMap, cbs: seq<Callback>)
    requires forall i :: 0 <= i < |cbs| && cbs[i].FillCb? ==> Pairs(orders, cbs[i])
    ensures Volume(orders, true, cbs) == Volume(orders, false, cbs)
  {
    if cbs != [] {
      assert cbs[0].FillCb? ==> Pairs(orders, cbs[0]);
      VolumesOfPairs(orders, cbs[1..]);
    }
  }

  /** Over the whole history as much was bought as was sold. */
  lemma BoughtEqualsSoldSoFar(s: Sys)
    requires Inv(s)
    ensures Volume(s.orders, true, s.history) == Volume(s.orders, false, s.history)
  {
    VolumesOfPairs(s.orders, s.history);
  }

  lemma {:induction false} CostsOfPairs(orders: OrderMap, cbs: seq<Callback>)
    requires forall i :: 0 <= i < |cbs| && cbs[i].FillCb? ==> Pairs(orders, cbs[i])
    ensures Turnover(orders, true, cbs) == Turnover(orders, false, cbs)
  {
    if cbs != [] {
      assert cbs[0].FillCb? ==> Pairs(orders, cbs[0]);
      CostsOfPairs(orders, cbs[1..]);
    }
  }

  /** What the buyers paid is what the sellers were paid. */
  lemma PaidEqualsReceivedSoFar(s: Sys)
    requires Inv(s)
    ensures Turnover(s.orders, true, s.history) == Turnover(s.orders, false, s.history)
  {
    CostsOfPairs(s.orders, s.history);
  }

  /** After any run, what an order says it was filled for, and what that cost, is what its fills add
      up to, and quantity times price of each of them. */
  lemma OrderKeepsAccount(rs: seq<Request>, s: Sys, id: OrderId)
    requires Reaches(START, rs, s) && id in s.orders
    ensures s.orders[id].filled == FillsOf(s.history, id)
    ensures s.orders[id].filledCost == CostOf(s.history, id)
  {
    StartHasInv();
    RunKeepsInv(START, rs, s);
  }

  // ---- Finding orders ----

  lemma {:induction false} FindFromReaches(v: View, side: seq<Entry>, buy: bool, key: ComparablePrice, k: nat, j: nat)
    requires SideOk(v, side, buy) && k <= j < |side| && side[j].key == key
    ensures FindFrom(side, key, side[j].tracker.ptr, k) == j
    decreases j - k
  {
    if k < j {
      assert !side[j].key.Less(side[k].key);
      FindFromReaches(v, side, buy, key, k + 1, j);
    }
  }

  lemma {:induction false} FindKeyBefore(side: seq<Entry>, key: ComparablePrice, k: nat, j: nat)
    requires k <= j < |side| && side[j].key.price == key.price
    ensures FindKey(side, key, k) <= j
    decreases j - k
  {
    if side[k].key.price != key.price {
      FindKeyBefore(side, key, k + 1, j);
    }
  }

  /** Looking an order up finds it exactly when it rests, and finds its own node. */
  lemma FindsExactlyResting(s: Sys, id: OrderId, j: nat)
    requires Inv(s)
    ensures var side := s.book.Side(IsBuy(s.orders, id));
            var k := FindOnMarket(s.orders, s.book, id);
            && (j < |side| && side[j].tracker.ptr == id ==> k == j)
            && (k < |side| ==> side[k].tracker.ptr == id)
  {
    var buy := IsBuy(s.orders, id);
    var side := s.book.Side(buy);
    var key := ComparablePrice(buy, PriceOf(s.orders, id));
    if j < |side| && side[j].tracker.ptr == id {
      assert Resting(Seen(s.orders, s.book), side[j], buy);
      FindKeyBefore(side, key, 0, j);
      FindFromReaches(Seen(s.orders, s.book), side, buy, key, FindKey(side, key, 0), j);
    }
  }

  // ---- The callbacks of a request ----

  /** The callbacks one request emits. */
  function Emitted(s: Sys, r: Request): seq<Callback> {
    match r
    case AddReq(id, order, aon, ioc) => Add(s.orders[id := order], s.book, id, aon, ioc).cbs
    case CancelReq(id) => Cancel(s.orders, s.book, id).cbs
    case ReplaceReq(id, delta, newPrice) => Replace(s.orders, s.book, id, delta, newPrice).cbs
    case MarketPriceReq(_) => []
  }

  /** The orders as the engine sees them while it handles a request. */
  function OrdersAt(s: Sys, r: Request): OrderMap {
    if r.AddReq? then s.orders[r.id := r.order] else s.orders
  }

  // ---- The accept callback ----

  lemma {:induction false} AbsentOpensNothing(ts: seq<Tracker>, id: OrderId)
    requires forall k :: 0 <= k < |ts| ==> ts[k].ptr != id
    ensures Sum(OpenOf(id), ts) == 0
  {
    if ts != [] {
      AbsentOpensNothing(ts[1..], id);
    }
  }

  lemma StaysAbsent(s': seq<Entry>, s: seq<Entry>, id: OrderId)
    requires ComesFrom(s', s) && AllOpen(s) && Sum(LiveOf(id), Trackers(s)) == 0
    ensures Sum(OpenOf(id), Trackers(s')) == 0 == Sum(OpenOf(id), Trackers(s))
  {
    NotLiveMeansAbsent(s, id);
    AbsentOpensNothing(Trackers(s), id);
    forall i | 0 <= i < |s'|
      ensures s'[i].tracker.ptr != id
    {
      assert HasSource(s'[i], s);
      var j :| 0 <= j < |s| && Shrinks(s'[i], s[j]);
      assert s[j].tracker.ptr != id;
    }
    AbsentOpensNothing(Trackers(s'), id);
  }

  lemma StopsOpenNothing(sb: StopBook, id: OrderId)
    requires StopSum(LiveOf(id), sb) == 0
    ensures StopSum(OpenOf(id), sb) == 0
  {
    NotLiveNotOpen(id, Trackers(sb.stopBids));
    NotLiveNotOpen(id, Trackers(sb.stopAsks));
    NotLiveNotOpen(id, sb.pending);
  }

  /** What an order's own first match leaves it is what its fills have not taken. */
  lemma FirstMatchFills(v: View, b: Book, t: Tracker)
    requires Submittable(v, b, t)
    ensures var m := MatchOrder(v.env, t, PriceOf(v.denv, t.ptr), b.Side(!IsBuy(v.denv, t.ptr)), b.stops);
            m.inbound.openQty + FillsOf(m.fills, t.ptr) == t.openQty && m.inbound.ptr == t.ptr
  {
    hide Matching.MatchOrder;
    var buy, price := IsBuy(v.denv, t.ptr), PriceOf(v.denv, t.ptr);
    var m := MatchOrder(v.env, t, price, b.Side(!buy), b.stops);
    FirstMatchKeeps(v, t, price, b.Side(!buy), !buy, b.stops, t.ptr, LiveOf(t.ptr));
    StaysAbsent(m.side, b.Side(!buy), t.ptr);
    StopsOpenNothing(b.stops, t.ptr);
    StopsOpenNothing(m.stops, t.ptr);
  }

  lemma StartsWith(head: Callback, fills: seq<Callback>, more: seq<Callback>, a: seq<Callback>, b: seq<Callback>,
                   c: seq<Callback>)
    ensures [head] + fills <= [head] + fills + a + b + c
    ensures [head] + fills <= [head] + (fills + more) + a + b + c
  {
    assert [head] + (fills + more) == [head] + fills + more;
  }

  /** The match an order begins with is the first thing that adding it does. */
  lemma AddedStartsWithMatch(env: OrderMap, b: Book, t: Tracker, price: nat)
    ensures var a := AddOrder(env, b, t, price);
            var m := MatchOrder(env, t, price, b.Side(!IsBuy(env, t.ptr)), b.stops);
            a.inbound == m.inbound && m.fills <= a.fills
  {
    hide Matching.MatchOrder, Matching.CheckDeferred;
  }

  /** The first callback of a new order that is not held back accepts it, and tells exactly what
      the order has filled in its own first match; those fills follow at once. */
  lemma AcceptTellsFirstMatch(s: Sys, id: OrderId, order: Order, t: Tracker)
    requires Fresh(s, id, order, t) && !Held(s.orders[id := order], id, s.book.stops.marketPrice)
    ensures var orders := s.orders[id := order];
            var m := MatchOrder(orders, t, order.price, s.book.Side(!order.isBuy), s.book.stops);
            [AcceptCb(id, FillsOf(m.fills, id))] + m.fills <= Add(orders, s.book, id, t.aon, t.ioc).cbs
  {
    hide Inv, Fresh, Seen, Submittable, Matching.MatchOrder, Matching.SubmitPending, Matching.CheckDeferred;
    var orders := s.orders[id := order];
    FreshView(s, id, order, t);
    NewOrderComing(s, id, order, t);
    FirstMatchFills(Seen(orders, s.book, [t]), s.book, t);
    AcceptAndFills(orders, s.book, t, MatchOrder(orders, t, order.price, s.book.Side(!order.isBuy), s.book.stops));
  }

  lemma AcceptAndFills(orders: OrderMap, b: Book, t: Tracker, m: Match)
    requires t.ptr in orders && t == Tracker(t.ptr, orders[t.ptr].qty, t.aon, t.ioc) && t.openQty > 0
    requires !Held(orders, t.ptr, b.stops.marketPrice)
    requires m == MatchOrder(orders, t, orders[t.ptr].price, b.Side(!orders[t.ptr].isBuy), b.stops)
    requires m.inbound.openQty + FillsOf(m.fills, t.ptr) == t.openQty && m.inbound.ptr == t.ptr
    ensures [AcceptCb(t.ptr, FillsOf(m.fills, t.ptr))] + m.fills <= Add(orders, b, t.ptr, t.aon, t.ioc).cbs
  {
    hide Matching.MatchOrder, Matching.SubmitPending, Matching.AddOrder, Held, CancelRest;
    var order := orders[t.ptr];
    AddedStartsWithMatch(orders, b, t, order.price);
    var a := AddOrder(orders, b, t, order.price);
    assert a.fills == m.fills + a.fills[|m.fills|..];
    StartsWith(AcceptCb(t.ptr, order.qty - Min(order.qty, a.inbound.openQty)), m.fills, a.fills[|m.fills|..],
               CancelRest(a.inbound), SubmitPending(orders, a.book).fills, [BookUpdateCb]);
  }
}
