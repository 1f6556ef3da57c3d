/** What one match does, told by its fills alone: an inbound order facing one side of the
    book, changed fill by fill. All later accounting rests on this reading and not on the
    matching algorithms. */
module Faces {
  import opened Prices
  import opened Orders
  import opened Books
  import opened Matching

  datatype Face = Face(inbound: Tracker, side: seq<Entry>, stops: StopBook)

  /** A fill is valid against a face when it trades the inbound order with a resting order
      that crosses it, for a quantity both still have, never part of an all-or-none resting
      order, at the cross price, with truthful flags. */
  ghost predicate ValidFill(env: OrderMap, price: nat, f: Face, cb: Callback) {
    && cb.FillCb?
    && cb.order == f.inbound.ptr
    && var k := IndexOf(f.side, cb.matched);
    && k < |f.side|
    && f.side[k].key.Matches(price)
    && 0 < cb.quantity <= f.inbound.openQty
    && cb.quantity <= f.side[k].tracker.openQty
    && (f.side[k].tracker.aon ==> cb.quantity == f.side[k].tracker.openQty)
    && cb.price == CrossPrice(env, cb.order, cb.matched, f.stops.marketPrice) != MARKET_ORDER_PRICE
    && (cb.inboundFilled <==> cb.quantity == f.inbound.openQty)
    && (cb.matchedFilled <==> cb.quantity == f.side[k].tracker.openQty)
  }

  ghost function ApplyFill(f: Face, cb: Callback): Face {
    if !cb.FillCb? then f
    else
      var k := IndexOf(f.side, cb.matched);
      if k == |f.side| then f
      else Face(f.inbound.Reduce(cb.quantity), Settle(f.side, k, f.side[k].tracker.Reduce(cb.quantity)),
                SetMarketPrice(f.stops, cb.price))
  }

  ghost predicate ValidRun(env: OrderMap, price: nat, f: Face, fills: seq<Callback>)
    decreases |fills|
  {
    fills == [] || (ValidFill(env, price, f, fills[0]) && ValidRun(env, price, ApplyFill(f, fills[0]), fills[1..]))
  }

  ghost function Replay(f: Face, fills: seq<Callback>): Face
    decreases |fills|
  {
    if fills == [] then f else Replay(ApplyFill(f, fills[0]), fills[1..])
  }

  /** A run that takes one face to another. */
  ghost predicate Runs(env: OrderMap, price: nat, f: Face, fills: seq<Callback>, g: Face) {
    ValidRun(env, price, f, fills) && Replay(f, fills) == g
  }

  lemma {:induction false} RunsAppend(env: OrderMap, price: nat, f: Face, a: seq<Callback>, g: Face, b: seq<Callback>,
                                      h: Face)
    requires Runs(env, price, f, a, g) && Runs(env, price, g, b, h)
    ensures Runs(env, price, f, a + b, h)
    decreases |a|
  {
    if a == [] {
      assert a + b == b;
    } else {
      assert (a + b)[0] == a[0] && (a + b)[1..] == a[1..] + b;
      RunsAppend(env, price, ApplyFill(f, a[0]), a[1..], g, b, h);
    }
  }

  /** A run against part of a side is a run against the whole side. */
  lemma {:induction false} RunsExtend(env: OrderMap, price: nat, f: Face, fills: seq<Callback>, g: Face,
                                      tail: seq<Entry>)
    requires Runs(env, price, f, fills, g)
    ensures Runs(env, price, f.(side := f.side + tail), fills, g.(side := g.side + tail))
    decreases |fills|
  {
    if fills != [] {
      var cb := fills[0];
      var k := IndexOf(f.side, cb.matched);
      IndexOfAppend(f.side, tail, cb.matched);
      var t := f.side[k].tracker.Reduce(cb.quantity);
      assert Settle(f.side + tail, k, t) == Settle(f.side, k, t) + tail;
      RunsExtend(env, price, ApplyFill(f, cb), fills[1..], g, tail);
    }
  }

  /** `CreateTrade` with the order at `k` is either nothing or one valid fill. */
  lemma TradeRuns(env: OrderMap, price: nat, inbound: Tracker, side: seq<Entry>, k: nat, maxQty: nat, sb: StopBook)
    requires k < |side| && IndexOf(side, side[k].tracker.ptr) == k
    requires side[k].key.Matches(price) && side[k].tracker.openQty > 0
    requires side[k].tracker.aon ==> maxQty == 0 || side[k].tracker.openQty <= Min(maxQty, inbound.openQty)
    ensures var t := CreateTrade(env, inbound, side[k].tracker, maxQty, sb);
            Runs(env, price, Face(inbound, side, sb), t.fills, Face(t.inbound, Settle(side, k, t.current), t.stops))
  {
    var t := CreateTrade(env, inbound, side[k].tracker, maxQty, sb);
    var f := Face(inbound, side, sb);
    if t.qty == 0 {
      assert Settle(side, k, t.current) == side;
    } else {
      var cb := t.fills[0];
      assert side[k].tracker.Reduce(cb.quantity) == t.current;
      assert inbound.Reduce(cb.quantity) == t.inbound;
      assert SetMarketPrice(sb, cb.price) == t.stops;
      assert IndexOf(side, cb.matched) == k;
      assert ValidFill(env, price, f, cb);
      assert ApplyFill(f, cb) == Face(t.inbound, Settle(side, k, t.current), t.stops);
      assert t.fills[1..] == [];
    }
  }

  ghost predicate AllOpen(s: seq<Entry>) {
    forall k :: 0 <= k < |s| ==> s[k].tracker.openQty > 0
  }

  lemma SettleKeepsNodes(s: seq<Entry>, k: nat, t: Tracker)
    requires k < |s| && t.ptr == s[k].tracker.ptr
    ensures Distinct(s) ==> Distinct(Settle(s, k, t))
    ensures AllOpen(s) ==> AllOpen(Settle(s, k, t))
  {
  }

  ghost predicate Clean(s: seq<Entry>) {
    Distinct(s) && AllOpen(s)
  }

  lemma {:induction false} RunsKeepClean(env: OrderMap, price: nat, f: Face, fills: seq<Callback>, g: Face)
    requires Runs(env, price, f, fills, g) && Clean(f.side)
    ensures Clean(g.side)
    decreases |fills|
  {
    if fills != [] {
      var cb := fills[0];
      var k := IndexOf(f.side, cb.matched);
      SettleKeepsNodes(f.side, k, f.side[k].tracker.Reduce(cb.quantity));
      RunsKeepClean(env, price, ApplyFill(f, cb), fills[1..], g);
    }
  }

  /** Trading with the next node of a side. */
  lemma TradeNext(env: OrderMap, price: nat, inbound: Tracker, done: seq<Entry>, e: Entry, tail: seq<Entry>,
                  maxQty: nat, sb: StopBook)
    requires Clean(done + [e] + tail) && e.key.Matches(price)
    requires e.tracker.aon ==> maxQty == 0 || e.tracker.openQty <= Min(maxQty, inbound.openQty)
    ensures var t := CreateTrade(env, inbound, e.tracker, maxQty, sb);
            && Runs(env, price, Face(inbound, done + [e] + tail, sb), t.fills,
                    Face(t.inbound, Past(done, e, t.current) + tail, t.stops))
            && Clean(Past(done, e, t.current) + tail)
  {
    var t := CreateTrade(env, inbound, e.tracker, maxQty, sb);
    var side := done + [e] + tail;
    assert side[|done|] == e;
    IndexOfUnique(side, |done|);
    TradeRuns(env, price, inbound, side, |done|, maxQty, sb);
    SettleKeepsNodes(side, |done|, t.current);
    assert Settle(side, |done|, t.current) == Past(done, e, t.current) + tail;
  }

  lemma {:induction false} MatchRegularRuns(env: OrderMap, inbound: Tracker, price: nat, done: seq<Entry>,
                                            rest: seq<Entry>, sb: StopBook)
    requires Clean(done + rest)
    ensures var m := MatchRegular(env, inbound, price, done, rest, sb);
            Runs(env, price, Face(inbound, done + rest, sb), m.fills, Face(m.inbound, m.side, m.stops))
    decreases |rest|
  {
    if rest == [] || inbound.openQty == 0 || !rest[0].key.Matches(price) {
      return;
    }
    var e, tail := rest[0], rest[1..];
    assert done + [e] + tail == done + rest;
    if e.tracker.aon && inbound.openQty < e.tracker.openQty {
      MatchRegularRuns(env, inbound, price, done + [e], tail, sb);
    } else {
      var t := CreateTrade(env, inbound, e.tracker, inbound.openQty, sb);
      TradeNext(env, price, inbound, done, e, tail, inbound.openQty, sb);
      var done' := Past(done, e, t.current);
      MatchRegularRuns(env, t.inbound, price, done', tail, t.stops);
      var m := MatchRegular(env, t.inbound, price, done', tail, t.stops);
      RunsAppend(env, price, Face(inbound, done + rest, sb), t.fills, Face(t.inbound, done' + tail, t.stops), m.fills,
                 Face(m.inbound, m.side, m.stops));
    }
  }
}
