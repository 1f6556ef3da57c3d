/** What a run of fills conserves: every order's quantity, the identity of the orders,
    the order of each side, and the stop orders it releases. */
module Accounting {
  import opened Prices
  import opened Orders
  import opened Options
  import opened Books
  import opened Matching
  import opened Faces

  /** Quantity an order traded in a list of callbacks, on either end of each fill. */
  function FillsOf(cbs: seq<Callback>, id: OrderId): nat {
    if cbs == [] then 0
    else
      var cb := cbs[0];
      (if cb.FillCb? && cb.order == id then cb.quantity else 0)
      + (if cb.FillCb? && cb.matched == id then cb.quantity else 0)
      + FillsOf(cbs[1..], id)
  }

  lemma {:induction false} FillsOfAppend(a: seq<Callback>, b: seq<Callback>, id: OrderId)
    ensures FillsOf(a + b, id) == FillsOf(a, id) + FillsOf(b, id)
  {
    if a == [] {
      assert a + b == b;
    } else {
      assert (a + b)[1..] == a[1..] + b;
      FillsOfAppend(a[1..], b, id);
    }
  }

  /** What those trades came to, quantity times price. */
  function CostOf(cbs: seq<Callback>, id: OrderId): nat {
    if cbs == [] then 0
    else
      var cb := cbs[0];
      (if cb.FillCb? && cb.order == id then cb.quantity * cb.price else 0)
      + (if cb.FillCb? && cb.matched == id then cb.quantity * cb.price else 0)
      + CostOf(cbs[1..], id)
  }

  lemma {:induction false} CostOfAppend(a: seq<Callback>, b: seq<Callback>, id: OrderId)
    ensures CostOf(a + b, id) == CostOf(a, id) + CostOf(b, id)
  {
    if a == [] {
      assert a + b == b;
    } else {
      assert (a + b)[1..] == a[1..] + b;
      CostOfAppend(a[1..], b, id);
    }
  }

  lemma {:induction false} NoFillsNoCost(cbs: seq<Callback>, id: OrderId)
    requires FillsOf(cbs, id) == 0
    ensures CostOf(cbs, id) == 0
  {
    if cbs != [] {
      NoFillsNoCost(cbs[1..], id);
    }
  }

  function FaceSum(w: Weight, f: Face): nat {
    WeightOf(w, f.inbound) + Sum(w, Trackers(f.side))
  }

  /** Order by order, what was open is what is still open plus what was filled. */
  lemma {:induction false} RunConserves(env: OrderMap, price: nat, f: Face, fills: seq<Callback>, g: Face, id: OrderId)
    requires Runs(env, price, f, fills, g)
    ensures FaceSum(OpenOf(id), g) + FillsOf(fills, id) == FaceSum(OpenOf(id), f)
    decreases |fills|
  {
    if fills != [] {
      var cb := fills[0];
      var k := IndexOf(f.side, cb.matched);
      SumSettle(OpenOf(id), f.side, k, f.side[k].tracker.Reduce(cb.quantity));
      RunConserves(env, price, ApplyFill(f, cb), fills[1..], g, id);
    }
  }

  /** Totals that no fill can raise: is an order there, is it there untouched, and how many are
      immediate-or-cancel limit orders? */
  predicate Falling(w: Weight) {
    w.LiveOf? || w.ExactAon? || w.RegularOf? || w.IocLimit?
  }

  /** No order appears on the side that was not there, and no all-or-none order is there
      with another quantity than before. */
  lemma {:induction false} RunOnlyRemoves(env: OrderMap, price: nat, f: Face, fills: seq<Callback>, g: Face, w: Weight)
    requires Runs(env, price, f, fills, g) && Falling(w)
    ensures Sum(w, Trackers(g.side)) <= Sum(w, Trackers(f.side))
    decreases |fills|
  {
    if fills != [] {
      var cb := fills[0];
      var k := IndexOf(f.side, cb.matched);
      SumSettle(w, f.side, k, f.side[k].tracker.Reduce(cb.quantity));
      RunOnlyRemoves(env, price, ApplyFill(f, cb), fills[1..], g, w);
    }
  }

  /** What a node of a side may turn into: the same order with less open; an all-or-none
      order only into itself. */
  predicate Shrinks(e': Entry, e: Entry) {
    && e'.key == e.key
    && e'.tracker == e.tracker.(openQty := e'.tracker.openQty)
    && 0 < e'.tracker.openQty <= e.tracker.openQty
    && (e.tracker.aon ==> e' == e)
  }

  /** Every node of `s'` comes from a node of `s`. */
  ghost predicate ComesFrom(s': seq<Entry>, s: seq<Entry>) {
    forall i :: 0 <= i < |s'| ==> HasSource(s'[i], s)
  }

  ghost predicate HasSource(e': Entry, s: seq<Entry>) {
    exists j :: 0 <= j < |s| && Shrinks(e', s[j])
  }

  lemma ComesFromTransitive(a: seq<Entry>, b: seq<Entry>, c: seq<Entry>)
    requires ComesFrom(a, b) && ComesFrom(b, c)
    ensures ComesFrom(a, c)
  {
    forall i | 0 <= i < |a|
      ensures HasSource(a[i], c)
    {
      var j :| 0 <= j < |b| && Shrinks(a[i], b[j]);
      var k :| 0 <= k < |c| && Shrinks(b[j], c[k]);
      assert Shrinks(a[i], c[k]);
    }
  }

  lemma ComesFromSelf(s: seq<Entry>)
    requires AllOpen(s)
    ensures ComesFrom(s, s)
  {
    forall i | 0 <= i < |s|
      ensures HasSource(s[i], s)
    {
      assert Shrinks(s[i], s[i]);
    }
  }

  ghost predicate GoodSide(s: seq<Entry>, buySide: bool) {
    Sorted(s) && OneSided(s, buySide) && Clean(s)
  }

  lemma SettleShrinks(s: seq<Entry>, k: nat, q: nat, buySide: bool)
    requires GoodSide(s, buySide) && k < |s| && 0 < q <= s[k].tracker.openQty
    requires s[k].tracker.aon ==> q == s[k].tracker.openQty
    ensures var s' := Settle(s, k, s[k].tracker.Reduce(q)); GoodSide(s', buySide) && ComesFrom(s', s)
  {
    hide Settle, AllOpen, Distinct, HasSource, Shrinks;
    var t := s[k].tracker.Reduce(q);
    SettleKeepsNodes(s, k, t);
    SettleKeepsOrder(s, k, t, buySide);
    forall i | 0 <= i < |Settle(s, k, t)|
      ensures HasSource(Settle(s, k, t)[i], s)
    {
      SettledFrom(s, k, q, i);
    }
  }

  lemma SettleKeepsOrder(s: seq<Entry>, k: nat, t: Tracker, buySide: bool)
    requires Sorted(s) && OneSided(s, buySide) && k < |s|
    ensures Sorted(Settle(s, k, t)) && OneSided(Settle(s, k, t), buySide)
  {
  }

  lemma SettledFrom(s: seq<Entry>, k: nat, q: nat, i: nat)
    requires AllOpen(s) && k < |s| && 0 < q <= s[k].tracker.openQty && (s[k].tracker.aon ==> q == s[k].tracker.openQty)
    requires i < |Settle(s, k, s[k].tracker.Reduce(q))|
    ensures HasSource(Settle(s, k, s[k].tracker.Reduce(q))[i], s)
  {
    var t := s[k].tracker.Reduce(q);
    var j := if t.openQty == 0 && k <= i then i + 1 else i;
    assert Shrinks(Settle(s, k, t)[i], s[j]);
  }

  /** A run leaves the side sorted and clean, with nothing on it but shrunken nodes. */
  lemma {:induction false} RunShrinksSide(env: OrderMap, price: nat, f: Face, fills: seq<Callback>, g: Face,
                                          buySide: bool)
    requires Runs(env, price, f, fills, g) && GoodSide(f.side, buySide)
    ensures GoodSide(g.side, buySide) && ComesFrom(g.side, f.side)
    ensures g.inbound == f.inbound.(openQty := g.inbound.openQty) && g.inbound.openQty <= f.inbound.openQty
    decreases |fills|
  {
    if fills == [] {
      ComesFromSelf(f.side);
    } else {
      var cb := fills[0];
      SettleShrinks(f.side, IndexOf(f.side, cb.matched), cb.quantity, buySide);
      var f' := ApplyFill(f, cb);
      RunShrinksSide(env, price, f', fills[1..], g, buySide);
      ComesFromTransitive(g.side, f'.side, f.side);
    }
  }

  // ---- Stop orders ----

  function StopSum(w: Weight, sb: StopBook): nat {
    Sum(w, Trackers(sb.stopBids)) + Sum(w, Trackers(sb.stopAsks)) + Sum(w, sb.pending)
  }

  /** The application orders the engine reads (`env`), the ones its callbacks will be read
      against (`denv`), whether a market price was already known, and which side, if any, may
      have all-or-none market orders when none was. The two maps differ only in the order a
      replace request is changing. */
  datatype View = View(env: OrderMap, denv: OrderMap, priced: bool, bare: Option<bool>)

  /** All-or-none orders can always be given a price: while no market price is known, those that
      are market orders are on one side, and the orders on the other side are limit orders. */
  predicate Fair(v: View, t: Tracker) {
    v.priced || PriceOf(v.env, t.ptr) != MARKET_ORDER_PRICE
    || (v.bare != Some(!IsBuy(v.denv, t.ptr)) && (t.aon ==> v.bare == Some(IsBuy(v.denv, t.ptr))))
  }

  /** A held order: something is open, and it has the same price in both order maps. */
  predicate Waits(v: View, t: Tracker) {
    t.openQty > 0 && PriceOf(v.env, t.ptr) == PriceOf(v.denv, t.ptr) && Fair(v, t)
  }

  ghost predicate AllWait(v: View, ts: seq<Tracker>) {
    forall k :: 0 <= k < |ts| ==> Waits(v, ts[k])
  }

  ghost predicate StopsOk(v: View, sb: StopBook) {
    && Sorted(sb.stopBids) && OneSided(sb.stopBids, true) && AllWait(v, Trackers(sb.stopBids))
    && Sorted(sb.stopAsks) && OneSided(sb.stopAsks, false) && AllWait(v, Trackers(sb.stopAsks))
    && AllWait(v, sb.pending)
    && (v.priced || sb.pending != [] ==> sb.marketPrice != MARKET_ORDER_PRICE)
  }

  lemma ReleaseKeeps(w: Weight, stops: seq<Entry>, pending: seq<Tracker>, n: nat)
    requires n <= |stops|
    ensures Sum(w, Trackers(stops)) + Sum(w, pending)
            == Sum(w, Trackers(stops[n..])) + Sum(w, pending + Trackers(stops[..n]))
  {
    assert Trackers(stops) == Trackers(stops[..n]) + Trackers(stops[n..]);
    SumAppend(w, Trackers(stops[..n]), Trackers(stops[n..]));
    SumAppend(w, pending, Trackers(stops[..n]));
  }

  /** A new market price only moves orders from the stops to the pending list. */
  lemma MarketPriceKeepsStops(w: Weight, sb: StopBook, price: nat)
    ensures StopSum(w, SetMarketPrice(sb, price)) == StopSum(w, sb)
  {
    hide ReleaseCount, Sum, Trackers;
    ReleaseKeeps(w, sb.stopBids, sb.pending, ReleaseCount(ComparablePrice(true, price), sb.stopBids));
    ReleaseKeeps(w, sb.stopAsks, sb.pending, ReleaseCount(ComparablePrice(false, price), sb.stopAsks));
  }

  lemma ReleaseKeepsWaiting(v: View, stops: seq<Entry>, buySide: bool, pending: seq<Tracker>, n: nat)
    requires n <= |stops| && Sorted(stops) && OneSided(stops, buySide)
    requires AllWait(v, Trackers(stops)) && AllWait(v, pending)
    ensures Sorted(stops[n..]) && OneSided(stops[n..], buySide)
    ensures AllWait(v, Trackers(stops[n..])) && AllWait(v, pending + Trackers(stops[..n]))
  {
    assert forall k :: 0 <= k < |stops| - n ==> Trackers(stops[n..])[k] == Trackers(stops)[n + k];
    assert forall k :: 0 <= k < n ==> Trackers(stops[..n])[k] == Trackers(stops)[k];
  }

  lemma MarketPriceKeepsStopsOk(v: View, sb: StopBook, price: nat)
    requires StopsOk(v, sb) && price != MARKET_ORDER_PRICE
    ensures StopsOk(v, SetMarketPrice(sb, price))
  {
    ReleaseKeepsWaiting(v, sb.stopBids, true, sb.pending, ReleaseCount(ComparablePrice(true, price), sb.stopBids));
    ReleaseKeepsWaiting(v, sb.stopAsks, false, sb.pending, ReleaseCount(ComparablePrice(false, price), sb.stopAsks));
  }

  lemma {:induction false} RunKeepsStops(v: View, price: nat, f: Face, fills: seq<Callback>, g: Face, w: Weight)
    requires Runs(v.env, price, f, fills, g) && StopsOk(v, f.stops)
    ensures StopSum(w, g.stops) == StopSum(w, f.stops)
    ensures StopsOk(v, g.stops)
    decreases |fills|
  {
    if fills != [] {
      MarketPriceKeepsStops(w, f.stops, fills[0].price);
      MarketPriceKeepsStopsOk(v, f.stops, fills[0].price);
      RunKeepsStops(v, price, ApplyFill(f, fills[0]), fills[1..], g, w);
    }
  }
}
