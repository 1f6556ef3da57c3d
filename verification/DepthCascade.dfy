/** Depth agreement carried through the re-check, a submission and the whole cascade. */
module DepthCascade {
  import opened Prices
  import opened Orders
  import opened Books
  import opened Matching
  import opened Faces
  import opened Accounting
  import opened BookRuns
  import opened Cascade
  import opened DepthSpec
  import opened DepthRuns

  /** Fold some fills and compare with the live orders afterwards. */
  ghost predicate FoldsTo(d: AbsDepth, v: View, fills: seq<Callback>, live: seq<Tracker>) {
    var r := FoldFills(d, v.denv, fills);
    r.Some? && Agrees(r.value, v.denv, live) && NothingIgnored(r.value)
  }

  lemma FoldsToSame(d: AbsDepth, v: View, fills: seq<Callback>, a: seq<Tracker>, b: seq<Tracker>)
    requires FoldsTo(d, v, fills, a) && SameSums(a, b)
    ensures FoldsTo(d, v, fills, b)
  {
    AgreesWithSame(FoldFills(d, v.denv, fills).value, v.denv, a, b);
  }

  lemma Sum3(w: Weight, a: seq<Tracker>, b: seq<Tracker>, c: seq<Tracker>)
    ensures Sum(w, a + b + c) == Sum(w, a) + Sum(w, b) + Sum(w, c)
  {
    SumAppend(w, a, b);
    SumAppend(w, a + b, c);
  }

  // ---- One match ----

  lemma MatchAgrees(v: View, t: Tracker, price: nat, side: seq<Entry>, sb: StopBook, d: AbsDepth, others: seq<Tracker>)
    requires Clean(side) && Opposed(v, t, side) && (v.priced ==> sb.marketPrice != MARKET_ORDER_PRICE)
    requires Agrees(d, v.denv, others + [t] + Trackers(side)) && NothingIgnored(d)
    ensures var m := MatchOrder(v.env, t, price, side, sb);
            FoldsTo(d, v, m.fills, others + [m.inbound] + Trackers(m.side))
  {
    var m := MatchOrder(v.env, t, price, side, sb);
    MatchOrderRuns(v, t, price, side, sb);
    RunAgrees(v, price, Face(t, side, sb), m.fills, Face(m.inbound, m.side, m.stops), d, others);
  }

  // ---- The re-check ----

  lemma SplitOut(others: seq<Tracker>, aons: seq<Entry>, k: nat, t: Tracker, market: seq<Entry>)
    requires k < |aons|
    ensures SameSums(others + Trackers(Erase(aons, k)) + [t] + Trackers(market),
                     others + Trackers(Settle(aons, k, t)) + Trackers(market))
  {
    forall w: Weight
      ensures Sum(w, others + Trackers(Erase(aons, k)) + [t] + Trackers(market))
              == Sum(w, others + Trackers(Settle(aons, k, t)) + Trackers(market))
    {
      SumErase(w, aons, k);
      SumSettle(w, aons, k, t);
      Sum3(w, others, Trackers(Settle(aons, k, t)), Trackers(market));
      Sum3(w, others, Trackers(Erase(aons, k)), [t]);
      SumAppend(w, others + Trackers(Erase(aons, k)) + [t], Trackers(market));
      SumOne(w, t);
    }
  }

  lemma RecheckStepAgrees(v: View, aons: seq<Entry>, k: nat, market: seq<Entry>, buySide: bool, sb: StopBook,
                          d: AbsDepth, others: seq<Tracker>)
    requires PairOk(v, aons, market, buySide, sb) && k < |aons|
    requires Agrees(d, v.denv, others + Trackers(aons) + Trackers(market)) && NothingIgnored(d)
    ensures var m := MatchOrder(v.env, aons[k].tracker, aons[k].key.price, market, sb);
            FoldsTo(d, v, m.fills, others + Trackers(Settle(aons, k, m.inbound)) + Trackers(m.side))
  {
    var t := aons[k].tracker;
    assert Resting(v, aons[k], buySide);
    assert Settle(aons, k, t) == aons;
    SplitOut(others, aons, k, t, market);
    AgreesWithSame(d, v.denv, others + Trackers(aons) + Trackers(market),
                   others + Trackers(Erase(aons, k)) + [t] + Trackers(market));
    SideIsOpposed(v, t, market, !buySide);
    MatchAgrees(v, t, aons[k].key.price, market, sb, d, others + Trackers(Erase(aons, k)));
    var m := MatchOrder(v.env, t, aons[k].key.price, market, sb);
    SplitOut(others, aons, k, m.inbound, m.side);
    FoldsToSame(d, v, m.fills, others + Trackers(Erase(aons, k)) + [m.inbound] + Trackers(m.side),
                others + Trackers(Settle(aons, k, m.inbound)) + Trackers(m.side));
  }

  lemma {:induction false} RecheckAgrees(v: View, ids: seq<OrderId>, aons: seq<Entry>, market: seq<Entry>,
                                         buySide: bool, sb: StopBook, d: AbsDepth, others: seq<Tracker>)
    requires PairOk(v, aons, market, buySide, sb)
    requires Agrees(d, v.denv, others + Trackers(aons) + Trackers(market)) && NothingIgnored(d)
    ensures var c := CheckDeferred(v.env, ids, aons, market, sb);
            FoldsTo(d, v, c.fills, others + Trackers(c.aons) + Trackers(c.market))
    decreases |ids|
  {
    if ids != [] {
      var k := IndexOf(aons, ids[0]);
      if k == |aons| {
        RecheckAgrees(v, ids[1..], aons, market, buySide, sb, d, others);
      } else {
        RecheckStepAgrees(v, aons, k, market, buySide, sb, d, others);
        RecheckStep(v, aons, k, market, buySide, sb, 0, LiveOf(0));
        var m := MatchOrder(v.env, aons[k].tracker, aons[k].key.price, market, sb);
        var aons' := Settle(aons, k, m.inbound);
        var d' := FoldFills(d, v.denv, m.fills).value;
        RecheckAgrees(v, ids[1..], aons', m.side, buySide, m.stops, d', others);
        FoldFillsAppend(d, v.denv, m.fills, CheckDeferred(v.env, ids[1..], aons', m.side, m.stops).fills);
      }
    }
  }

  // ---- Stop orders never change the totals ----

  lemma MatchKeepsStopSum(v: View, t: Tracker, price: nat, side: seq<Entry>, sb: StopBook, w: Weight)
    requires Clean(side) && Opposed(v, t, side) && StopsOk(v, sb)
    ensures StopSum(w, MatchOrder(v.env, t, price, side, sb).stops) == StopSum(w, sb)
  {
    var m := MatchOrder(v.env, t, price, side, sb);
    MatchOrderRuns(v, t, price, side, sb);
    RunKeepsStops(v, price, Face(t, side, sb), m.fills, Face(m.inbound, m.side, m.stops), w);
  }

  lemma {:induction false} RecheckKeepsStopSum(v: View, ids: seq<OrderId>, aons: seq<Entry>, market: seq<Entry>,
                                               buySide: bool, sb: StopBook, w: Weight)
    requires PairOk(v, aons, market, buySide, sb)
    ensures StopSum(w, CheckDeferred(v.env, ids, aons, market, sb).stops) == StopSum(w, sb)
    decreases |ids|
  {
    if ids != [] {
      var k := IndexOf(aons, ids[0]);
      if k == |aons| {
        RecheckKeepsStopSum(v, ids[1..], aons, market, buySide, sb, w);
      } else {
        assert Resting(v, aons[k], buySide);
        SideIsOpposed(v, aons[k].tracker, market, !buySide);
        MatchKeepsStopSum(v, aons[k].tracker, aons[k].key.price, market, sb, w);
        RecheckStep(v, aons, k, market, buySide, sb, 0, LiveOf(0));
        var m := MatchOrder(v.env, aons[k].tracker, aons[k].key.price, market, sb);
        RecheckKeepsStopSum(v, ids[1..], Settle(aons, k, m.inbound), m.side, buySide, m.stops, w);
      }
    }
  }

  lemma AddOrderKeepsStopSum(v: View, b: Book, t: Tracker, w: Weight)
    requires Submittable(v, b, t)
    ensures StopSum(w, AddOrder(v.env, b, t, PriceOf(v.denv, t.ptr)).book.stops) == StopSum(w, b.stops)
  {
    var buy, price := IsBuy(v.denv, t.ptr), PriceOf(v.denv, t.ptr);
    MatchKeepsStopSum(v, t, price, b.Side(!buy), b.stops, w);
    FirstMatchKeeps(v, t, price, b.Side(!buy), !buy, b.stops, 0, LiveOf(0));
    var m := MatchOrder(v.env, t, price, b.Side(!buy), b.stops);
    if m.inbound.openQty > 0 && !m.inbound.ioc {
      var e := Entry(ComparablePrice(buy, price), m.inbound);
      InsertKeepsSideOk(v, b.Side(buy), e, buy);
      RecheckKeepsStopSum(v, m.deferred, m.side, Insert(b.Side(buy), e), !buy, m.stops, w);
    }
  }

  // ---- A submission ----

  /** All orders a book holds, at rest, held back or pending. */
  function BookLive(b: Book): seq<Tracker> {
    Trackers(b.bids) + Trackers(b.asks) + (Trackers(b.stops.stopBids) + Trackers(b.stops.stopAsks) + b.stops.pending)
  }

  lemma SumBookLive(w: Weight, b: Book)
    ensures Sum(w, BookLive(b)) == BookSum(w, b)
  {
    Sum3(w, Trackers(b.stops.stopBids), Trackers(b.stops.stopAsks), b.stops.pending);
    Sum3(w, Trackers(b.bids), Trackers(b.asks), Trackers(b.stops.stopBids) + Trackers(b.stops.stopAsks)
         + b.stops.pending);
  }

  function StopLive(sb: StopBook): seq<Tracker> {
    Trackers(sb.stopBids) + Trackers(sb.stopAsks) + sb.pending
  }

  /** The two sides of a submission, taken apart: the stop orders count like any others. */
  lemma BySides(b: Book, buy: bool, extra: seq<Tracker>, x: seq<Tracker>, sb: StopBook)
    requires forall w :: StopSum(w, b.stops) == StopSum(w, sb)
    ensures SameSums(extra + x + BookLive(b), extra + StopLive(sb) + x + Trackers(b.Side(!buy)) + Trackers(b.Side(buy)))
  {
    forall w: Weight
      ensures Sum(w, extra + x + BookLive(b))
              == Sum(w, extra + StopLive(sb) + x + Trackers(b.Side(!buy)) + Trackers(b.Side(buy)))
    {
      Sum3(w, extra, x, BookLive(b));
      SumBookLive(w, b);
      Sum3(w, extra, StopLive(sb), x);
      Sum3(w, extra + StopLive(sb) + x, Trackers(b.Side(!buy)), Trackers(b.Side(buy)));
      Sum3(w, Trackers(sb.stopBids), Trackers(sb.stopAsks), sb.pending);
      assert StopSum(w, b.stops) == StopSum(w, sb);
    }
  }

  lemma Rotate(a: seq<Tracker>, x: seq<Tracker>, b: seq<Tracker>, c: seq<Tracker>)
    ensures SameSums(a + x + b + c, a + c + x + b)
  {
    forall w: Weight
      ensures Sum(w, a + x + b + c) == Sum(w, a + c + x + b)
    {
      Sum3(w, a, x, b);
      SumAppend(w, a + x + b, c);
      Sum3(w, a, c, x);
      SumAppend(w, a + c + x, b);
    }
  }

  lemma RestingJoins(a: seq<Tracker>, own: seq<Entry>, e: Entry, opposite: seq<Entry>)
    ensures SameSums(a + [e.tracker] + Trackers(opposite) + Trackers(own),
                     a + Trackers(opposite) + Trackers(Insert(own, e)))
  {
    forall w: Weight
      ensures Sum(w, a + [e.tracker] + Trackers(opposite) + Trackers(own))
              == Sum(w, a + Trackers(opposite) + Trackers(Insert(own, e)))
    {
      Sum3(w, a, [e.tracker], Trackers(opposite));
      SumAppend(w, a + [e.tracker] + Trackers(opposite), Trackers(own));
      Sum3(w, a, Trackers(opposite), Trackers(Insert(own, e)));
      SumInsert(w, own, e);
      SumOne(w, e.tracker);
    }
  }

  /** The part of a submission after the first match. */
  lemma RestAgrees(v: View, own: seq<Entry>, t: Tracker, m: Match, buy: bool, d: AbsDepth, others: seq<Tracker>)
    requires SideOk(v, own, buy) && SideOk(v, m.side, !buy) && StopsOk(v, m.stops)
    requires m.inbound.ptr == t.ptr && m.inbound.aon == t.aon && m.inbound.openQty > 0 && !m.inbound.ioc && Fair(v, t)
    requires IsBuy(v.denv, t.ptr) == buy && Sum(LiveOf(t.ptr), Trackers(own)) == 0
    requires Agrees(d, v.denv, others + [m.inbound] + Trackers(m.side) + Trackers(own)) && NothingIgnored(d)
    ensures var own' := Insert(own, Entry(ComparablePrice(buy, PriceOf(v.denv, t.ptr)), m.inbound));
            var c := CheckDeferred(v.env, m.deferred, m.side, own', m.stops);
            FoldsTo(d, v, c.fills, others + Trackers(c.aons) + Trackers(c.market))
  {
    var e := Entry(ComparablePrice(buy, PriceOf(v.denv, t.ptr)), m.inbound);
    InsertKeepsSideOk(v, own, e, buy);
    RestingJoins(others, own, e, m.side);
    AgreesWithSame(d, v.denv, others + [m.inbound] + Trackers(m.side) + Trackers(own),
                   others + Trackers(m.side) + Trackers(Insert(own, e)));
    RecheckAgrees(v, m.deferred, m.side, Insert(own, e), !buy, m.stops, d, others);
  }

  /** What is left of the inbound order after its first match counts for nothing when it
      is filled. */
  lemma RemainderCounts(a: seq<Tracker>, t: Tracker, b: seq<Tracker>)
    ensures SameSums(a + [t] + b, a + (if t.openQty == 0 then [] else [t]) + b)
  {
    forall w: Weight
      ensures Sum(w, a + [t] + b) == Sum(w, a + (if t.openQty == 0 then [] else [t]) + b)
    {
      Sum3(w, a, [t], b);
      Sum3(w, a, if t.openQty == 0 then [] else [t], b);
      SumOne(w, t);
    }
  }

  /** The fills of the first match, over a depth that shows the inbound order. */
  lemma FirstMatchAgrees(v: View, b: Book, t: Tracker, d: AbsDepth, others: seq<Tracker>)
    requires Submittable(v, b, t)
    requires Agrees(d, v.denv, others + [t] + Trackers(b.Side(!IsBuy(v.denv, t.ptr)))
                    + Trackers(b.Side(IsBuy(v.denv, t.ptr))))
    requires NothingIgnored(d)
    ensures var buy := IsBuy(v.denv, t.ptr);
            var m := MatchOrder(v.env, t, PriceOf(v.denv, t.ptr), b.Side(!buy), b.stops);
            FoldsTo(d, v, m.fills, others + [m.inbound] + Trackers(m.side) + Trackers(b.Side(buy)))
  {
    var buy, price := IsBuy(v.denv, t.ptr), PriceOf(v.denv, t.ptr);
    var own, opposite := Trackers(b.Side(buy)), b.Side(!buy);
    var m := MatchOrder(v.env, t, price, opposite, b.stops);
    Rotate(others, [t], Trackers(opposite), own);
    AgreesWithSame(d, v.denv, others + [t] + Trackers(opposite) + own, others + own + [t] + Trackers(opposite));
    MatchAgrees(v, t, price, opposite, b.stops, d, others + own);
    Rotate(others, [m.inbound], Trackers(m.side), own);
    FoldsToSame(d, v, m.fills, others + own + [m.inbound] + Trackers(m.side),
                others + [m.inbound] + Trackers(m.side) + own);
  }

  lemma AddedAgrees(v: View, b: Book, t: Tracker, d: AbsDepth, others: seq<Tracker>)
    requires Submittable(v, b, t)
    requires Agrees(d, v.denv, others + [t] + Trackers(b.Side(!IsBuy(v.denv, t.ptr)))
                    + Trackers(b.Side(IsBuy(v.denv, t.ptr))))
    requires NothingIgnored(d)
    ensures var buy := IsBuy(v.denv, t.ptr);
            var a := AddOrder(v.env, b, t, PriceOf(v.denv, t.ptr));
            FoldsTo(d, v, a.fills, others + a.dropped + Trackers(a.book.Side(!buy)) + Trackers(a.book.Side(buy)))
  {
    hide Agrees, FoldFills, SideOk, StopsOk, Matching.MatchOrder, Matching.CheckDeferred, SameSums;
    var buy, price := IsBuy(v.denv, t.ptr), PriceOf(v.denv, t.ptr);
    var own := b.Side(buy);
    FirstMatchAgrees(v, b, t, d, others);
    FirstMatchKeeps(v, t, price, b.Side(!buy), !buy, b.stops, 0, LiveOf(0));
    var m := MatchOrder(v.env, t, price, b.Side(!buy), b.stops);
    if m.inbound.openQty == 0 || m.inbound.ioc {
      var dropped := if m.inbound.openQty == 0 then [] else [m.inbound];
      RemainderCounts(others, m.inbound, Trackers(m.side) + Trackers(own));
      Regroup(others, [m.inbound], Trackers(m.side), Trackers(own));
      Regroup(others, dropped, Trackers(m.side), Trackers(own));
      FoldsToSame(d, v, m.fills, others + [m.inbound] + Trackers(m.side) + Trackers(own),
                  others + dropped + Trackers(m.side) + Trackers(own));
    } else {
      var d' := FoldFills(d, v.denv, m.fills).value;
      RestAgrees(v, own, t, m, buy, d', others);
      var own' := Insert(own, Entry(ComparablePrice(buy, price), m.inbound));
      var c := CheckDeferred(v.env, m.deferred, m.side, own', m.stops);
      FoldFillsAppend(d, v.denv, m.fills, c.fills);
      assert others + [] == others;
    }
  }

  /** A submission: fold its fills and the depth agrees with the book it leaves, plus
      whatever immediate-or-cancel remainder it dropped. */
  lemma AddOrderAgrees(v: View, b: Book, t: Tracker, d: AbsDepth, extra: seq<Tracker>)
    requires Submittable(v, b, t) && Agrees(d, v.denv, extra + [t] + BookLive(b)) && NothingIgnored(d)
    ensures var a := AddOrder(v.env, b, t, PriceOf(v.denv, t.ptr));
            FoldsTo(d, v, a.fills, extra + a.dropped + BookLive(a.book))
  {
    var buy := IsBuy(v.denv, t.ptr);
    var a := AddOrder(v.env, b, t, PriceOf(v.denv, t.ptr));
    var others := extra + StopLive(b.stops);
    BySides(b, buy, extra, [t], b.stops);
    AgreesWithSame(d, v.denv, extra + [t] + BookLive(b), others + [t] + Trackers(b.Side(!buy)) + Trackers(b.Side(buy)));
    AddedAgrees(v, b, t, d, others);
    forall w: Weight
      ensures StopSum(w, a.book.stops) == StopSum(w, b.stops)
    {
      AddOrderKeepsStopSum(v, b, t, w);
    }
    BySides(a.book, buy, extra, a.dropped, b.stops);
    FoldsToSame(d, v, a.fills, others + a.dropped + Trackers(a.book.Side(!buy)) + Trackers(a.book.Side(buy)),
                extra + a.dropped + BookLive(a.book));
  }

  // ---- The cascade ----

  lemma HeadOut(extra: seq<Tracker>, waiting: seq<Tracker>, live: seq<Tracker>)
    requires waiting != []
    ensures SameSums(extra + waiting + live, extra + waiting[1..] + [waiting[0]] + live)
  {
    forall w: Weight
      ensures Sum(w, extra + waiting + live) == Sum(w, extra + waiting[1..] + [waiting[0]] + live)
    {
      Sum3(w, extra, waiting, live);
      Sum3(w, extra, waiting[1..], [waiting[0]]);
      SumAppend(w, extra + waiting[1..] + [waiting[0]], live);
      SumOne(w, waiting[0]);
    }
  }

  lemma Swap(a: seq<Tracker>, x: seq<Tracker>, y: seq<Tracker>, b: seq<Tracker>)
    ensures SameSums(a + x + y + b, a + y + x + b)
  {
    forall w: Weight
      ensures Sum(w, a + x + y + b) == Sum(w, a + y + x + b)
    {
      Sum3(w, a, x, y);
      Sum3(w, a, y, x);
      SumAppend(w, a + x + y, b);
      SumAppend(w, a + y + x, b);
    }
  }

  lemma Regroup(a: seq<Tracker>, b: seq<Tracker>, c: seq<Tracker>, e: seq<Tracker>)
    ensures a + (b + c) + e == a + b + c + e
    ensures a + b + (c + e) == a + b + c + e
  {
  }

  lemma FoldsChain(d: AbsDepth, v: View, a: seq<Callback>, mid: seq<Tracker>, b: seq<Callback>, live: seq<Tracker>)
    requires FoldsTo(d, v, a, mid) && FoldsTo(FoldFills(d, v.denv, a).value, v, b, live)
    ensures FoldsTo(d, v, a + b, live)
  {
    FoldFillsAppend(d, v.denv, a, b);
  }

  lemma SubmitHeadAgrees(v: View, b: Book, waiting: seq<Tracker>, d: AbsDepth, extra: seq<Tracker>)
    requires QueueOk(v, b, waiting) && waiting != [] && Agrees(d, v.denv, extra + waiting + BookLive(b))
    requires NothingIgnored(d)
    ensures var a := AddOrder(v.env, b, waiting[0], PriceOf(v.env, waiting[0].ptr));
            FoldsTo(d, v, a.fills, extra + a.dropped + waiting[1..] + BookLive(a.book))
  {
    HeadIsSubmittable(v, b, waiting);
    HeadOut(extra, waiting, BookLive(b));
    AgreesWithSame(d, v.denv, extra + waiting + BookLive(b), extra + waiting[1..] + [waiting[0]] + BookLive(b));
    AddOrderAgrees(v, b, waiting[0], d, extra + waiting[1..]);
    var a := AddOrder(v.env, b, waiting[0], PriceOf(v.env, waiting[0].ptr));
    Swap(extra, waiting[1..], a.dropped, BookLive(a.book));
    FoldsToSame(d, v, a.fills, extra + waiting[1..] + a.dropped + BookLive(a.book),
                extra + a.dropped + waiting[1..] + BookLive(a.book));
  }

  lemma {:induction false} SubmitAllAgrees(v: View, b: Book, waiting: seq<Tracker>, d: AbsDepth, extra: seq<Tracker>)
    requires QueueOk(v, b, waiting) && Agrees(d, v.denv, extra + waiting + BookLive(b)) && NothingIgnored(d)
    ensures var s := SubmitAll(v.env, b, waiting); FoldsTo(d, v, s.fills, extra + s.dropped + BookLive(s.book))
    decreases |waiting|
  {
    if waiting != [] {
      SubmitOneKeeps(v, b, waiting);
      SubmitHeadAgrees(v, b, waiting, d, extra);
      var a := AddOrder(v.env, b, waiting[0], PriceOf(v.env, waiting[0].ptr));
      SubmitAllAgrees(v, a.book, waiting[1..], FoldFills(d, v.denv, a.fills).value, extra + a.dropped);
      var s := SubmitAll(v.env, a.book, waiting[1..]);
      Regroup(extra, a.dropped, s.dropped, BookLive(s.book));
      FoldsChain(d, v, a.fills, extra + a.dropped + waiting[1..] + BookLive(a.book), s.fills,
                 extra + (a.dropped + s.dropped) + BookLive(s.book));
    }
  }

  lemma PendingOut(extra: seq<Tracker>, b: Book)
    ensures SameSums(extra + BookLive(b), extra + b.stops.pending + BookLive(Emptied(b)))
  {
    forall w: Weight
      ensures Sum(w, extra + BookLive(b)) == Sum(w, extra + b.stops.pending + BookLive(Emptied(b)))
    {
      SumAppend(w, extra, BookLive(b));
      Sum3(w, extra, b.stops.pending, BookLive(Emptied(b)));
      SumBookLive(w, b);
      SumBookLive(w, Emptied(b));
    }
  }

  lemma {:induction false} SubmitPendingAgrees(v: View, b: Book, d: AbsDepth, extra: seq<Tracker>)
    requires QueueOk(v, b, []) && Agrees(d, v.denv, extra + BookLive(b)) && NothingIgnored(d)
    ensures var r := SubmitPending(v.env, b); FoldsTo(d, v, r.fills, extra + r.dropped + BookLive(r.book))
    decreases b.stops.Load()
  {
    if b.stops.pending == [] {
      assert extra + [] == extra;
    } else {
      EmptiedIsQueue(v, b);
      PendingOut(extra, b);
      AgreesWithSame(d, v.denv, extra + BookLive(b), extra + b.stops.pending + BookLive(Emptied(b)));
      SubmitAllAgrees(v, Emptied(b), b.stops.pending, d, extra);
      SubmittedIsQueue(v, b);
      var s := SubmitAll(v.env, Emptied(b), b.stops.pending);
      SubmitPendingAgrees(v, s.book, FoldFills(d, v.denv, s.fills).value, extra + s.dropped);
      var r := SubmitPending(v.env, s.book);
      Regroup(extra, s.dropped, r.dropped, BookLive(r.book));
      FoldsChain(d, v, s.fills, extra + s.dropped + BookLive(s.book), r.fills,
                 extra + (s.dropped + r.dropped) + BookLive(r.book));
    }
  }
}
