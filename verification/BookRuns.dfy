/** What one submission does to the whole book: matching, insertion and the re-check of
    deferred all-or-none orders keep the book in order and lose no quantity. */
module BookRuns {
  import opened Prices
  import opened Orders
  import opened Books
  import opened Matching
  import opened Faces
  import opened AllOrNone
  import opened Accounting

  /** One side of a book at rest: best price first, one node per order, every order on
      its own side at its own price, and nothing that should have been cancelled. */
  ghost predicate SideOk(v: View, s: seq<Entry>, buySide: bool) {
    GoodSide(s, buySide) && forall k :: 0 <= k < |s| ==> Resting(v, s[k], buySide)
  }

  predicate Resting(v: View, e: Entry, buySide: bool) {
    && IsBuy(v.denv, e.tracker.ptr) == buySide
    && e.key.price == PriceOf(v.denv, e.tracker.ptr)
    && !e.tracker.ioc
    && Fair(v, e.tracker)
  }

  lemma ComesFromKeepsSide(v: View, s': seq<Entry>, s: seq<Entry>, buySide: bool)
    requires SideOk(v, s, buySide) && GoodSide(s', buySide) && ComesFrom(s', s)
    ensures SideOk(v, s', buySide)
  {
    forall i | 0 <= i < |s'|
      ensures Resting(v, s'[i], buySide)
    {
      assert HasSource(s'[i], s);
      var j :| 0 <= j < |s| && Shrinks(s'[i], s[j]);
      assert Resting(v, s[j], buySide);
    }
  }

  lemma {:induction false} RegularMatchedIffFills(env: OrderMap, inbound: Tracker, price: nat, done: seq<Entry>,
                                                  rest: seq<Entry>, sb: StopBook)
    ensures var m := MatchRegular(env, inbound, price, done, rest, sb); m.matched <==> m.fills != []
    decreases |rest|
  {
    if rest != [] && inbound.openQty != 0 && rest[0].key.Matches(price) {
      var e, tail := rest[0], rest[1..];
      if e.tracker.aon && inbound.openQty < e.tracker.openQty {
        RegularMatchedIffFills(env, inbound, price, done + [e], tail, sb);
      } else {
        var t := CreateTrade(env, inbound, e.tracker, inbound.openQty, sb);
        RegularMatchedIffFills(env, t.inbound, price, Past(done, e, t.current), tail, t.stops);
      }
    }
  }

  /** Orders on opposite sides, of which the view knows that all-or-none orders find prices. */
  ghost predicate Opposed(v: View, t: Tracker, side: seq<Entry>) {
    && Fair(v, t)
    && forall k :: 0 <= k < |side| ==>
       Fair(v, side[k].tracker) && IsBuy(v.denv, side[k].tracker.ptr) != IsBuy(v.denv, t.ptr)
  }

  lemma OpposedIsSafe(v: View, t: Tracker, side: seq<Entry>, price: nat, sb: StopBook)
    requires Clean(side) && Opposed(v, t, side) && t.aon && (v.priced ==> sb.marketPrice != MARKET_ORDER_PRICE)
    ensures AonSafe(v.env, t, price, [], side, [], 0, sb)
  {
    assert [] + side == side;
    assert Payable(v.env, t, side, price, sb);
    PayableIsSafe(v.env, t, price, [], side, [], 0, sb);
  }

  lemma SideIsOpposed(v: View, t: Tracker, side: seq<Entry>, buySide: bool)
    requires SideOk(v, side, buySide) && Fair(v, t) && IsBuy(v.denv, t.ptr) == !buySide
    ensures Opposed(v, t, side) && Clean(side)
  {
    forall k | 0 <= k < |side|
      ensures Fair(v, side[k].tracker) && IsBuy(v.denv, side[k].tracker.ptr) == buySide
    {
      assert Resting(v, side[k], buySide);
    }
  }

  /** Whichever algorithm runs, a match is a run of valid fills, and an all-or-none
      inbound order comes out complete or untouched. */
  lemma MatchOrderRuns(v: View, inbound: Tracker, price: nat, side: seq<Entry>, sb: StopBook)
    requires Clean(side) && Opposed(v, inbound, side) && (v.priced ==> sb.marketPrice != MARKET_ORDER_PRICE)
    ensures var m := MatchOrder(v.env, inbound, price, side, sb);
            && Runs(v.env, price, Face(inbound, side, sb), m.fills, Face(m.inbound, m.side, m.stops))
            && (inbound.aon ==> m.inbound.openQty == 0 || (m.inbound == inbound && m.side == side && m.fills == []))
            && (m.matched <==> m.fills != [])
  {
    assert [] + side == side;
    if inbound.aon {
      OpposedIsSafe(v, inbound, side, price, sb);
      MatchAonRuns(v.env, inbound, price, [], side, [], 0, sb);
    } else {
      MatchRegularRuns(v.env, inbound, price, [], side, sb);
      RegularMatchedIffFills(v.env, inbound, price, [], side, sb);
    }
  }

  // ---- The re-check ----

  function PairSum(w: Weight, aons: seq<Entry>, market: seq<Entry>, sb: StopBook): nat {
    Sum(w, Trackers(aons)) + Sum(w, Trackers(market)) + StopSum(w, sb)
  }

  ghost predicate PairOk(v: View, aons: seq<Entry>, market: seq<Entry>, buySide: bool, sb: StopBook) {
    SideOk(v, aons, buySide) && SideOk(v, market, !buySide) && StopsOk(v, sb)
  }

  /** Matching one resting order against the other side, and putting back what is left. */
  lemma RecheckStep(v: View, aons: seq<Entry>, k: nat, market: seq<Entry>, buySide: bool, sb: StopBook, id: OrderId,
                    w: Weight)
    requires Falling(w)
    requires PairOk(v, aons, market, buySide, sb) && k < |aons|
    ensures var m := MatchOrder(v.env, aons[k].tracker, aons[k].key.price, market, sb);
            var aons' := Settle(aons, k, m.inbound);
            && PairOk(v, aons', m.side, buySide, m.stops)
            && ComesFrom(aons', aons) && ComesFrom(m.side, market)
            && PairSum(OpenOf(id), aons', m.side, m.stops) + FillsOf(m.fills, id)
               == PairSum(OpenOf(id), aons, market, sb)
            && PairSum(w, aons', m.side, m.stops) <= PairSum(w, aons, market, sb)
            && StopSum(w, m.stops) == StopSum(w, sb)
  {
    hide Matching.MatchOrder, Runs, Sum;
    var e := aons[k];
    assert Resting(v, e, buySide);
    var m := MatchOrder(v.env, e.tracker, e.key.price, market, sb);
    var f, g := Face(e.tracker, market, sb), Face(m.inbound, m.side, m.stops);
    SideIsOpposed(v, e.tracker, market, !buySide);
    MatchOrderRuns(v, e.tracker, e.key.price, market, sb);
    RunShrinksSide(v.env, e.key.price, f, m.fills, g, !buySide);
    ComesFromKeepsSide(v, m.side, market, !buySide);
    RunConserves(v.env, e.key.price, f, m.fills, g, id);
    RunKeepsStops(v, e.key.price, f, m.fills, g, OpenOf(id));
    RunKeepsStops(v, e.key.price, f, m.fills, g, w);
    RunOnlyRemoves(v.env, e.key.price, f, m.fills, g, w);
    SumSettle(OpenOf(id), aons, k, m.inbound);
    SumSettle(w, aons, k, m.inbound);
    SettleRemainder(aons, k, m.inbound, buySide);
    ComesFromKeepsSide(v, Settle(aons, k, m.inbound), aons, buySide);
  }

  lemma SettleRemainder(s: seq<Entry>, k: nat, t: Tracker, buySide: bool)
    requires GoodSide(s, buySide) && k < |s|
    requires t == s[k].tracker.(openQty := t.openQty) && t.openQty <= s[k].tracker.openQty
    requires s[k].tracker.aon ==> t.openQty == 0 || t == s[k].tracker
    ensures GoodSide(Settle(s, k, t), buySide) && ComesFrom(Settle(s, k, t), s)
  {
    if t == s[k].tracker {
      assert Settle(s, k, t) == s;
      ComesFromSelf(s);
    } else {
      var q := s[k].tracker.openQty - t.openQty;
      assert s[k].tracker.Reduce(q) == t;
      SettleShrinks(s, k, q, buySide);
    }
  }

  lemma {:induction false} CheckDeferredKeeps(v: View, ids: seq<OrderId>, aons: seq<Entry>, market: seq<Entry>,
                                              buySide: bool, sb: StopBook, id: OrderId, w: Weight)
    requires Falling(w)
    requires PairOk(v, aons, market, buySide, sb)
    ensures var c := CheckDeferred(v.env, ids, aons, market, sb);
            && PairOk(v, c.aons, c.market, buySide, c.stops)
            && ComesFrom(c.aons, aons) && ComesFrom(c.market, market)
            && PairSum(OpenOf(id), c.aons, c.market, c.stops) + FillsOf(c.fills, id)
               == PairSum(OpenOf(id), aons, market, sb)
            && PairSum(w, c.aons, c.market, c.stops) <= PairSum(w, aons, market, sb)
            && StopSum(w, c.stops) == StopSum(w, sb)
    decreases |ids|
  {
    if ids == [] {
      ComesFromSelf(aons);
      ComesFromSelf(market);
      return;
    }
    var k := IndexOf(aons, ids[0]);
    if k == |aons| {
      CheckDeferredKeeps(v, ids[1..], aons, market, buySide, sb, id, w);
      return;
    }
    RecheckStep(v, aons, k, market, buySide, sb, id, w);
    var m := MatchOrder(v.env, aons[k].tracker, aons[k].key.price, market, sb);
    var aons' := Settle(aons, k, m.inbound);
    CheckDeferredKeeps(v, ids[1..], aons', m.side, buySide, m.stops, id, w);
    var c := CheckDeferred(v.env, ids[1..], aons', m.side, m.stops);
    ComesFromTransitive(c.aons, aons', aons);
    ComesFromTransitive(c.market, m.side, market);
    FillsOfAppend(m.fills, c.fills, id);
  }

  // ---- Adding one order ----

  ghost predicate BookOk(v: View, b: Book) {
    SideOk(v, b.bids, true) && SideOk(v, b.asks, false) && StopsOk(v, b.stops)
  }

  function BookSum(w: Weight, b: Book): nat {
    Sum(w, Trackers(b.bids)) + Sum(w, Trackers(b.asks)) + StopSum(w, b.stops)
  }

  lemma NotLiveMeansAbsent(s: seq<Entry>, id: OrderId)
    requires AllOpen(s) && Sum(LiveOf(id), Trackers(s)) == 0
    ensures forall k :: 0 <= k < |s| ==> s[k].tracker.ptr != id
  {
    forall k | 0 <= k < |s|
      ensures s[k].tracker.ptr != id
    {
      SumAtLeast(LiveOf(id), Trackers(s), k);
    }
  }

  /** Resting an order that is not in the book yet keeps its side in order. */
  lemma InsertKeepsSideOk(v: View, s: seq<Entry>, e: Entry, buySide: bool)
    requires SideOk(v, s, buySide) && Resting(v, e, buySide) && e.key.buySide == buySide && e.tracker.openQty > 0
    requires Sum(LiveOf(e.tracker.ptr), Trackers(s)) == 0
    ensures SideOk(v, Insert(s, e), buySide)
  {
    NotLiveMeansAbsent(s, e.tracker.ptr);
    InsertKeepsSide(s, e, buySide);
    var k := InsertPos(s, e.key);
    forall i | 0 <= i < |s| + 1
      ensures Resting(v, Insert(s, e)[i], buySide) && Insert(s, e)[i].tracker.openQty > 0
    {
      if i < k {
        assert Insert(s, e)[i] == s[i];
      } else if i > k {
        assert Insert(s, e)[i] == s[i - 1];
      }
    }
  }

  /** First half of a submission: the order meets the opposite side. */
  lemma FirstMatchKeeps(v: View, t: Tracker, price: nat, opposite: seq<Entry>, buySide: bool, sb: StopBook, id: OrderId,
                        w: Weight)
    requires Falling(w)
    requires SideOk(v, opposite, buySide) && StopsOk(v, sb) && Fair(v, t) && IsBuy(v.denv, t.ptr) == !buySide
    ensures var m := MatchOrder(v.env, t, price, opposite, sb);
            && SideOk(v, m.side, buySide) && StopsOk(v, m.stops)
            && ComesFrom(m.side, opposite)
            && m.inbound == t.(openQty := m.inbound.openQty) && m.inbound.openQty <= t.openQty
            && (t.aon ==> m.inbound.openQty == 0 || m.inbound == t)
            && WeightOf(OpenOf(id), m.inbound) + Sum(OpenOf(id), Trackers(m.side)) + StopSum(OpenOf(id), m.stops)
               + FillsOf(m.fills, id)
               == WeightOf(OpenOf(id), t) + Sum(OpenOf(id), Trackers(opposite)) + StopSum(OpenOf(id), sb)
            && WeightOf(w, m.inbound) + Sum(w, Trackers(m.side)) + StopSum(w, m.stops)
               <= WeightOf(w, t) + Sum(w, Trackers(opposite)) + StopSum(w, sb)
            && StopSum(w, m.stops) == StopSum(w, sb)
  {
    hide Matching.MatchOrder, Runs, GoodSide, Fair, ComesFrom, Sum;
    var m := MatchOrder(v.env, t, price, opposite, sb);
    var f, g := Face(t, opposite, sb), Face(m.inbound, m.side, m.stops);
    SideIsOpposed(v, t, opposite, buySide);
    MatchOrderRuns(v, t, price, opposite, sb);
    RunShrinksSide(v.env, price, f, m.fills, g, buySide);
    ComesFromKeepsSide(v, m.side, opposite, buySide);
    RunConserves(v.env, price, f, m.fills, g, id);
    RunKeepsStops(v, price, f, m.fills, g, OpenOf(id));
    RunKeepsStops(v, price, f, m.fills, g, w);
    RunOnlyRemoves(v.env, price, f, m.fills, g, w);
  }

  /** The side an order rests on, with the order as it came in. */
  function Joined(v: View, own: seq<Entry>, t: Tracker): seq<Entry> {
    Insert(own, Entry(ComparablePrice(IsBuy(v.denv, t.ptr), PriceOf(v.denv, t.ptr)), t))
  }

  lemma InsertShrunk(own: seq<Entry>, e': Entry, e: Entry)
    requires AllOpen(own) && Shrinks(e', e)
    ensures ComesFrom(Insert(own, e'), Insert(own, e))
  {
    var k := InsertPos(own, e.key);
    forall i | 0 <= i < |own| + 1
      ensures HasSource(Insert(own, e')[i], Insert(own, e))
    {
      assert Shrinks(Insert(own, e')[i], Insert(own, e)[i]) by {
        if i == k {
        } else if i < k {
          assert Insert(own, e)[i] == own[i];
        } else {
          assert Insert(own, e)[i] == own[i - 1];
        }
      }
    }
  }

  lemma ComesFromWithInserted(s': seq<Entry>, s: seq<Entry>, e: Entry)
    requires ComesFrom(s', s)
    ensures ComesFrom(s', Insert(s, e))
  {
    var k := InsertPos(s, e.key);
    forall i | 0 <= i < |s'|
      ensures HasSource(s'[i], Insert(s, e))
    {
      assert HasSource(s'[i], s);
      var j :| 0 <= j < |s| && Shrinks(s'[i], s[j]);
      assert Insert(s, e)[if j < k then j else j + 1] == s[j];
    }
  }

  ghost predicate Submittable(v: View, b: Book, t: Tracker) {
    && BookOk(v, b) && t.openQty > 0 && Fair(v, t)
    && IsBuy(v.env, t.ptr) == IsBuy(v.denv, t.ptr)
    && BookSum(LiveOf(t.ptr), b) == 0
  }

  lemma AddedAndRechecked(v: View, b: Book, t: Tracker, m: Match, id: OrderId, w: Weight)
    requires Falling(w)
    requires Submittable(v, b, t)
    requires var buy := IsBuy(v.denv, t.ptr); SideOk(v, m.side, !buy) && StopsOk(v, m.stops)
    requires m.inbound == t.(openQty := m.inbound.openQty) && 0 < m.inbound.openQty <= t.openQty && !t.ioc
    requires t.aon ==> m.inbound == t
    ensures var buy := IsBuy(v.denv, t.ptr);
            var own := Insert(b.Side(buy), Entry(ComparablePrice(buy, PriceOf(v.denv, t.ptr)), m.inbound));
            var c := CheckDeferred(v.env, m.deferred, m.side, own, m.stops);
            && PairOk(v, c.aons, c.market, !buy, c.stops)
            && ComesFrom(c.market, Joined(v, b.Side(buy), t)) && ComesFrom(c.aons, m.side)
            && PairSum(OpenOf(id), c.aons, c.market, c.stops) + FillsOf(c.fills, id)
               == Sum(OpenOf(id), Trackers(b.Side(buy))) + WeightOf(OpenOf(id), m.inbound)
                  + Sum(OpenOf(id), Trackers(m.side)) + StopSum(OpenOf(id), m.stops)
            && PairSum(w, c.aons, c.market, c.stops)
               <= Sum(w, Trackers(b.Side(buy))) + WeightOf(w, m.inbound) + Sum(w, Trackers(m.side))
                   + StopSum(w, m.stops)
            && StopSum(w, c.stops) == StopSum(w, m.stops)
            && (FillsOf(m.fills + c.fills, id) == FillsOf(m.fills, id) + FillsOf(c.fills, id))
  {
    var buy := IsBuy(v.denv, t.ptr);
    var key := ComparablePrice(buy, PriceOf(v.denv, t.ptr));
    var side := b.Side(buy);
    var e := Entry(key, m.inbound);
    var own := Insert(side, e);
    InsertKeepsSideOk(v, side, e, buy);
    SumInsert(OpenOf(id), side, e);
    SumInsert(w, side, e);
    CheckDeferredKeeps(v, m.deferred, m.side, own, !buy, m.stops, id, w);
    var c := CheckDeferred(v.env, m.deferred, m.side, own, m.stops);
    assert Shrinks(e, Entry(key, t));
    InsertShrunk(side, e, Entry(key, t));
    ComesFromTransitive(c.market, own, Joined(v, side, t));
    FillsOfAppend(m.fills, c.fills, id);
  }

  /** What a submission may do: the book stays in order; whatever rests afterwards rested
      before or is the new order, all-or-none orders exactly as they were; and order by
      order, what was open is still open, was filled, or is the dropped remainder. */
  ghost predicate AddKeeps(v: View, b: Book, t: Tracker, id: OrderId, w: Weight, a: Added) {
    var buy := IsBuy(v.denv, t.ptr);
    && BookOk(v, a.book)
    && ComesFrom(a.book.Side(buy), Joined(v, b.Side(buy), t)) && ComesFrom(a.book.Side(!buy), b.Side(!buy))
    && BookSum(OpenOf(id), a.book) + Sum(OpenOf(id), a.dropped) + FillsOf(a.fills, id)
       == BookSum(OpenOf(id), b) + WeightOf(OpenOf(id), t)
    && BookSum(w, a.book) + Sum(w, a.dropped) <= BookSum(w, b) + WeightOf(w, t)
    && StopSum(w, a.book.stops) == StopSum(w, b.stops)
  }

  lemma BookBySides(v: View, b: Book, buy: bool, own: seq<Entry>, opposite: seq<Entry>, sb: StopBook, w: Weight)
    requires b == b.WithSides(buy, own, opposite, sb)
    ensures b.Side(buy) == own && b.Side(!buy) == opposite && b.stops == sb
    ensures BookSum(w, b) == Sum(w, Trackers(own)) + Sum(w, Trackers(opposite)) + StopSum(w, sb)
    ensures BookOk(v, b) <==> SideOk(v, own, buy) && SideOk(v, opposite, !buy) && StopsOk(v, sb)
  {
  }

  /** The facts about the two sides put together. */
  lemma Assemble(v: View, b: Book, t: Tracker, id: OrderId, w: Weight, own: seq<Entry>, opposite: seq<Entry>, a: Added)
    requires Submittable(v, b, t)
    requires var buy := IsBuy(v.denv, t.ptr);
             && a.book == b.WithSides(buy, own, opposite, a.book.stops)
             && SideOk(v, own, buy) && SideOk(v, opposite, !buy) && StopsOk(v, a.book.stops)
             && ComesFrom(own, Joined(v, b.Side(buy), t)) && ComesFrom(opposite, b.Side(!buy))
             && PairSum(OpenOf(id), opposite, own, a.book.stops) + Sum(OpenOf(id), a.dropped) + FillsOf(a.fills, id)
                == PairSum(OpenOf(id), b.Side(!buy), b.Side(buy), b.stops) + WeightOf(OpenOf(id), t)
             && PairSum(w, opposite, own, a.book.stops) + Sum(w, a.dropped)
                <= PairSum(w, b.Side(!buy), b.Side(buy), b.stops) + WeightOf(w, t)
             && StopSum(w, a.book.stops) == StopSum(w, b.stops)
    ensures AddKeeps(v, b, t, id, w, a)
  {
    var buy := IsBuy(v.denv, t.ptr);
    BookBySides(v, b, buy, b.Side(buy), b.Side(!buy), b.stops, OpenOf(id));
    BookBySides(v, b, buy, b.Side(buy), b.Side(!buy), b.stops, w);
    BookBySides(v, a.book, buy, own, opposite, a.book.stops, OpenOf(id));
    BookBySides(v, a.book, buy, own, opposite, a.book.stops, w);
  }

  /** The order was filled at once, or is an immediate-or-cancel order. */
  lemma AddWithoutResting(v: View, b: Book, t: Tracker, m: Match, id: OrderId, w: Weight)
    requires Falling(w)
    requires Submittable(v, b, t)
    requires m == MatchOrder(v.env, t, PriceOf(v.denv, t.ptr), b.Side(!IsBuy(v.denv, t.ptr)), b.stops)
    requires m.inbound.openQty == 0 || m.inbound.ioc
    ensures AddKeeps(v, b, t, id, w, Added(b.WithSides(IsBuy(v.denv, t.ptr), b.Side(IsBuy(v.denv, t.ptr)), m.side,
                                                       m.stops), m.inbound, m.fills, m.matched,
                                        if m.inbound.openQty == 0 then [] else [m.inbound]))
  {
    hide Matching.MatchOrder, StopsOk;
    var buy, price := IsBuy(v.denv, t.ptr), PriceOf(v.denv, t.ptr);
    var own := b.Side(buy);
    FirstMatchKeeps(v, t, price, b.Side(!buy), !buy, b.stops, id, w);
    SumOne(OpenOf(id), m.inbound);
    SumOne(w, m.inbound);
    ComesFromSelf(own);
    ComesFromWithInserted(own, own, Entry(ComparablePrice(buy, price), t));
    var a := Added(b.WithSides(buy, own, m.side, m.stops), m.inbound, m.fills, m.matched, if m.inbound.openQty == 0 then
                   [] else [m.inbound]);
    Assemble(v, b, t, id, w, own, m.side, a);
  }

  /** The order rests and deferred all-or-none orders are tried against it. */
  lemma AddAndRest(v: View, b: Book, t: Tracker, m: Match, id: OrderId, w: Weight)
    requires Falling(w)
    requires Submittable(v, b, t)
    requires m == MatchOrder(v.env, t, PriceOf(v.denv, t.ptr), b.Side(!IsBuy(v.denv, t.ptr)), b.stops)
    requires m.inbound.openQty > 0 && !m.inbound.ioc
    ensures var buy := IsBuy(v.denv, t.ptr);
            var own := Insert(b.Side(buy), Entry(ComparablePrice(buy, PriceOf(v.denv, t.ptr)), m.inbound));
            var c := CheckDeferred(v.env, m.deferred, m.side, own, m.stops);
            AddKeeps(v, b, t, id, w, Added(b.WithSides(buy, c.market, c.aons, c.stops), m.inbound, m.fills + c.fills,
                                           m.matched || c.matched, []))
  {
    hide SideOk, Matching.MatchOrder, BookSum;
    var buy, price := IsBuy(v.denv, t.ptr), PriceOf(v.denv, t.ptr);
    FirstMatchKeeps(v, t, price, b.Side(!buy), !buy, b.stops, id, w);
    AddedAndRechecked(v, b, t, m, id, w);
    var own := Insert(b.Side(buy), Entry(ComparablePrice(buy, price), m.inbound));
    var c := CheckDeferred(v.env, m.deferred, m.side, own, m.stops);
    ComesFromTransitive(c.aons, m.side, b.Side(!buy));
    Assemble(v, b, t, id, w, c.market, c.aons,
             Added(b.WithSides(buy, c.market, c.aons, c.stops), m.inbound, m.fills + c.fills, m.matched ||
                   c.matched, []));
  }

  lemma AddOrderKeeps(v: View, b: Book, t: Tracker, id: OrderId, w: Weight)
    requires Falling(w)
    requires Submittable(v, b, t)
    ensures AddKeeps(v, b, t, id, w, AddOrder(v.env, b, t, PriceOf(v.denv, t.ptr)))
  {
    var m := MatchOrder(v.env, t, PriceOf(v.denv, t.ptr), b.Side(!IsBuy(v.denv, t.ptr)), b.stops);
    if m.inbound.openQty == 0 || m.inbound.ioc {
      AddWithoutResting(v, b, t, m, id, w);
    } else {
      AddAndRest(v, b, t, m, id, w);
    }
  }
}
