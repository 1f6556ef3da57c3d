/** The book is never left crossed: no resting regular bid and resting regular ask that
    could trade with each other, unless both are market orders without a price. */
module Uncrossed {
  import opened Prices
  import opened Orders
  import opened Books
  import opened Matching
  import opened Faces
  import opened Accounting
  import opened BookRuns
  import opened Cascade
  import opened Priority

  /** Two resting regular orders of opposite sides that should have traded. */
  predicate Crosses(e: Entry, o: Entry) {
    && !e.tracker.aon && !o.tracker.aon
    && e.key.Matches(o.key.price)
    && (e.key.price != MARKET_ORDER_PRICE || o.key.price != MARKET_ORDER_PRICE)
  }

  ghost predicate SidesUncrossed(bids: seq<Entry>, asks: seq<Entry>) {
    forall i, j :: 0 <= i < |bids| && 0 <= j < |asks| ==> !Crosses(bids[i], asks[j])
  }

  ghost predicate BookUncrossed(b: Book) {
    SidesUncrossed(b.bids, b.asks)
  }

  lemma ShrinkingKeepsUncrossed(bids': seq<Entry>, bids: seq<Entry>, asks': seq<Entry>, asks: seq<Entry>)
    requires SidesUncrossed(bids, asks) && ComesFrom(bids', bids) && ComesFrom(asks', asks)
    ensures SidesUncrossed(bids', asks')
  {
    forall i, j | 0 <= i < |bids'| && 0 <= j < |asks'|
      ensures !Crosses(bids'[i], asks'[j])
    {
      assert HasSource(bids'[i], bids) && HasSource(asks'[j], asks);
      var k :| 0 <= k < |bids| && Shrinks(bids'[i], bids[k]);
      var l :| 0 <= l < |asks| && Shrinks(asks'[j], asks[l]);
      assert !Crosses(bids[k], asks[l]);
    }
  }

  /** A regular order this inbound order should have traded with: one of the two, or the market,
      has a price. */
  predicate LeftBehind(env: OrderMap, inbound: OrderId, price: nat, priced: bool, e: Entry) {
    && !e.tracker.aon && e.key.Matches(price)
    && (priced || PriceOf(env, inbound) != MARKET_ORDER_PRICE || PriceOf(env, e.tracker.ptr) != MARKET_ORDER_PRICE)
  }

  ghost predicate Cleared(env: OrderMap, inbound: OrderId, price: nat, priced: bool, s: seq<Entry>) {
    forall k :: 0 <= k < |s| ==> !LeftBehind(env, inbound, price, priced, s[k])
  }

  lemma ClearedAppend(env: OrderMap, inbound: OrderId, price: nat, priced: bool, a: seq<Entry>, b: seq<Entry>)
    requires Cleared(env, inbound, price, priced, a) && Cleared(env, inbound, price, priced, b)
    ensures Cleared(env, inbound, price, priced, a + b)
  {
  }

  /** A regular inbound order that comes out unfilled has left no regular order behind that
      it could have traded with: stopping at the first order that does not cross is sound. */
  lemma {:induction false} MatchRegularClears(env: OrderMap, inbound: Tracker, price: nat, priced: bool,
                                              done: seq<Entry>, rest: seq<Entry>, buySide: bool, sb: StopBook)
    requires AllOpen(rest) && Sorted(rest) && OneSided(rest, buySide) && Cleared(env, inbound.ptr, price, priced, done)
    requires priced ==> sb.marketPrice != MARKET_ORDER_PRICE
    ensures var m := MatchRegular(env, inbound, price, done, rest, sb);
            m.inbound.openQty > 0 ==> Cleared(env, inbound.ptr, price, priced, m.side)
    decreases |rest|
  {
    if inbound.openQty == 0 {
      return;
    }
    if rest == [] || !rest[0].key.Matches(price) {
      if rest != [] {
        NoneCrossesAfter(rest, buySide, price, 0);
      }
      ClearedAppend(env, inbound.ptr, price, priced, done, rest);
      return;
    }
    var e, tail := rest[0], rest[1..];
    TailIsOrdered(rest, buySide);
    if e.tracker.aon && inbound.openQty < e.tracker.openQty {
      ClearedAppend(env, inbound.ptr, price, priced, done, [e]);
      MatchRegularClears(env, inbound, price, priced, done + [e], tail, buySide, sb);
    } else {
      var t := CreateTrade(env, inbound, e.tracker, inbound.openQty, sb);
      if t.inbound.openQty > 0 {
        TradeClears(env, inbound, price, priced, done, e, sb);
        MatchRegularClears(env, t.inbound, price, priced, Past(done, e, t.current), tail, buySide, t.stops);
      } else {
        NothingAfterFilled(env, t.inbound, price, Past(done, e, t.current), tail, t.stops);
      }
    }
  }

  lemma NothingAfterFilled(env: OrderMap, inbound: Tracker, price: nat, done: seq<Entry>, rest: seq<Entry>,
                           sb: StopBook)
    requires inbound.openQty == 0
    ensures MatchRegular(env, inbound, price, done, rest, sb).inbound.openQty == 0
  {
  }

  lemma TradeClears(env: OrderMap, inbound: Tracker, price: nat, priced: bool, done: seq<Entry>, e: Entry, sb: StopBook)
    requires e.tracker.openQty > 0 && e.key.Matches(price) && inbound.openQty > 0
    requires Cleared(env, inbound.ptr, price, priced, done)
    requires priced ==> sb.marketPrice != MARKET_ORDER_PRICE
    ensures var t := CreateTrade(env, inbound, e.tracker, inbound.openQty, sb);
            t.inbound.openQty > 0 ==> Cleared(env, inbound.ptr, price, priced, Past(done, e, t.current))
  {
    var t := CreateTrade(env, inbound, e.tracker, inbound.openQty, sb);
    if t.inbound.openQty > 0 && t.current.openQty > 0 {
      assert t.qty == 0;
      assert !LeftBehind(env, inbound.ptr, price, priced, e);
      ClearedAppend(env, inbound.ptr, price, priced, done, [e]);
    }
  }

  predicate HasPrice(sb: StopBook) {
    sb.marketPrice != MARKET_ORDER_PRICE
  }

  /** Whichever regular order of the side this order crosses, a trade between the two finds a
      price. The orders the engine reads may show one of them as it was before a replace. */
  ghost predicate FindsPrice(v: View, t: Tracker, side: seq<Entry>, priced: bool) {
    || t.aon || priced
    || forall k :: 0 <= k < |side| ==> CrossingIsPriced(v, t, side[k])
  }

  predicate CrossingIsPriced(v: View, t: Tracker, e: Entry) {
    !e.tracker.aon && (PriceOf(v.denv, t.ptr) != MARKET_ORDER_PRICE || e.key.price != MARKET_ORDER_PRICE) ==>
      PriceOf(v.env, t.ptr) != MARKET_ORDER_PRICE || PriceOf(v.env, e.tracker.ptr) != MARKET_ORDER_PRICE
  }

  lemma ShrinkingFindsPrice(v: View, t: Tracker, side': seq<Entry>, side: seq<Entry>, priced: bool)
    requires FindsPrice(v, t, side, priced) && ComesFrom(side', side)
    ensures FindsPrice(v, t, side', priced)
  {
    if !t.aon && !priced {
      forall i | 0 <= i < |side'|
        ensures CrossingIsPriced(v, t, side'[i])
      {
        assert HasSource(side'[i], side);
        var j :| 0 <= j < |side| && Shrinks(side'[i], side[j]);
        assert CrossingIsPriced(v, t, side[j]);
      }
    }
  }

  /** Joining a side whose opposite was cleared leaves the sides uncrossed. */
  lemma JoinKeepsUncrossed(v: View, own: seq<Entry>, opposite: seq<Entry>, e: Entry, buy: bool, priced: bool)
    requires SideOk(v, own, buy) && SideOk(v, opposite, !buy) && FindsPrice(v, e.tracker, opposite, priced)
    requires e.key == ComparablePrice(buy, PriceOf(v.denv, e.tracker.ptr))
    requires e.tracker.aon || Cleared(v.env, e.tracker.ptr, e.key.price, priced, opposite)
    requires if buy then SidesUncrossed(own, opposite) else SidesUncrossed(opposite, own)
    ensures if buy then SidesUncrossed(Insert(own, e), opposite) else SidesUncrossed(opposite, Insert(own, e))
  {
    var k := InsertPos(own, e.key);
    forall i, j | 0 <= i < |own| + 1 && 0 <= j < |opposite|
      ensures !Crosses(Insert(own, e)[i], opposite[j]) && !Crosses(opposite[j], Insert(own, e)[i])
    {
      var o := opposite[j];
      assert Resting(v, o, !buy);
      if i == k {
        if !e.tracker.aon {
          assert priced || CrossingIsPriced(v, e.tracker, o);
          assert !LeftBehind(v.env, e.tracker.ptr, e.key.price, priced, o);
          MatchesIsSymmetric(if buy then e.key else o.key, if buy then o.key else e.key);
        }
      } else {
        var own' := if i < k then own[i] else own[i - 1];
        assert Insert(own, e)[i] == own';
        MatchesIsSymmetric(if buy then own'.key else o.key, if buy then o.key else own'.key);
        assert !Crosses(if buy then own' else o, if buy then o else own');
      }
    }
  }

  ghost predicate Facing(buy: bool, own: seq<Entry>, opposite: seq<Entry>) {
    if buy then SidesUncrossed(own, opposite) else SidesUncrossed(opposite, own)
  }

  lemma ShrinkingKeepsFacing(buy: bool, own': seq<Entry>, own: seq<Entry>, opposite': seq<Entry>, opposite: seq<Entry>)
    requires Facing(buy, own, opposite) && ComesFrom(own', own) && ComesFrom(opposite', opposite)
    ensures Facing(buy, own', opposite')
  {
    if buy {
      ShrinkingKeepsUncrossed(own', own, opposite', opposite);
    } else {
      ShrinkingKeepsUncrossed(opposite', opposite, own', own);
    }
  }

  lemma FirstMatchClears(v: View, t: Tracker, opposite: seq<Entry>, buySide: bool, sb: StopBook)
    requires SideOk(v, opposite, buySide) && !t.aon
    ensures var m := MatchOrder(v.env, t, PriceOf(v.denv, t.ptr), opposite, sb);
            m.inbound.openQty > 0 ==> Cleared(v.env, t.ptr, PriceOf(v.denv, t.ptr), HasPrice(sb), m.side)
  {
    MatchRegularClears(v.env, t, PriceOf(v.denv, t.ptr), HasPrice(sb), [], opposite, buySide, sb);
  }

  /** A submission leaves an uncrossed book uncrossed. */
  lemma AddOrderKeepsUncrossed(v: View, b: Book, t: Tracker)
    requires Submittable(v, b, t) && BookUncrossed(b)
    requires FindsPrice(v, t, b.Side(!IsBuy(v.denv, t.ptr)), HasPrice(b.stops))
    ensures BookUncrossed(AddOrder(v.env, b, t, PriceOf(v.denv, t.ptr)).book)
  {
    hide FindsPrice, HasPrice, Cleared, Insert, SidesUncrossed, Matching.MatchOrder, Matching.CheckDeferred;
    var buy, price := IsBuy(v.denv, t.ptr), PriceOf(v.denv, t.ptr);
    var own, opposite := b.Side(buy), b.Side(!buy);
    var m := MatchOrder(v.env, t, price, opposite, b.stops);
    FirstMatchKeeps(v, t, price, opposite, !buy, b.stops, 0, LiveOf(0));
    ComesFromSelf(own);
    ShrinkingKeepsFacing(buy, own, own, m.side, opposite);
    if m.inbound.openQty > 0 && !m.inbound.ioc {
      if !t.aon {
        FirstMatchClears(v, t, opposite, !buy, b.stops);
      }
      var e := Entry(ComparablePrice(buy, price), m.inbound);
      ShrinkingFindsPrice(v, t, m.side, opposite, HasPrice(b.stops));
      SameFindsPrice(v, t, m.inbound, m.side, HasPrice(b.stops));
      JoinKeepsUncrossed(v, own, m.side, e, buy, HasPrice(b.stops));
      RecheckKeepsFacing(v, b, t, m);
    }
  }

  lemma SameFindsPrice(v: View, t: Tracker, t': Tracker, side: seq<Entry>, priced: bool)
    requires FindsPrice(v, t, side, priced) && t' == t.(openQty := t'.openQty)
    ensures FindsPrice(v, t', side, priced)
  {
    if !t.aon && !priced {
      assert forall k :: 0 <= k < |side| ==> CrossingIsPriced(v, t, side[k]);
      assert forall k :: 0 <= k < |side| ==> CrossingIsPriced(v, t', side[k]);
    }
  }

  lemma RecheckKeepsFacing(v: View, b: Book, t: Tracker, m: Match)
    requires Submittable(v, b, t)
    requires var buy := IsBuy(v.denv, t.ptr);
             && SideOk(v, m.side, !buy) && StopsOk(v, m.stops)
             && m.inbound == t.(openQty := m.inbound.openQty) && 0 < m.inbound.openQty <= t.openQty && !t.ioc
             && (t.aon ==> m.inbound == t)
             && Facing(buy, Insert(b.Side(buy), Entry(ComparablePrice(buy, PriceOf(v.denv, t.ptr)), m.inbound)), m.side)
    ensures var buy := IsBuy(v.denv, t.ptr);
            var own := Insert(b.Side(buy), Entry(ComparablePrice(buy, PriceOf(v.denv, t.ptr)), m.inbound));
            var c := CheckDeferred(v.env, m.deferred, m.side, own, m.stops);
            Facing(buy, c.market, c.aons)
  {
    var buy := IsBuy(v.denv, t.ptr);
    var e := Entry(ComparablePrice(buy, PriceOf(v.denv, t.ptr)), m.inbound);
    var own := Insert(b.Side(buy), e);
    InsertKeepsSideOk(v, b.Side(buy), e, buy);
    CheckDeferredKeeps(v, m.deferred, m.side, own, !buy, m.stops, 0, LiveOf(0));
    var c := CheckDeferred(v.env, m.deferred, m.side, own, m.stops);
    ShrinkingKeepsFacing(buy, c.market, own, c.aons, m.side);
  }

  /** Orders only wait to be submitted once there is a market price. */
  lemma {:induction false} SubmitAllKeepsUncrossed(v: View, b: Book, waiting: seq<Tracker>)
    requires QueueOk(v, b, waiting) && BookUncrossed(b) && (waiting != [] ==> HasPrice(b.stops))
    ensures BookUncrossed(SubmitAll(v.env, b, waiting).book)
    decreases |waiting|
  {
    if waiting != [] {
      HeadIsSubmittable(v, b, waiting);
      AddOrderKeepsUncrossed(v, b, waiting[0]);
      SubmitOneKeeps(v, b, waiting);
      SubmitAllKeepsUncrossed(v, AddOrder(v.env, b, waiting[0], PriceOf(v.env, waiting[0].ptr)).book, waiting[1..]);
    }
  }

  lemma {:induction false} SubmitPendingKeepsUncrossed(v: View, b: Book)
    requires QueueOk(v, b, []) && BookUncrossed(b)
    ensures BookUncrossed(SubmitPending(v.env, b).book)
    decreases b.stops.Load()
  {
    if b.stops.pending != [] {
      EmptiedIsQueue(v, b);
      SubmitAllKeepsUncrossed(v, Emptied(b), b.stops.pending);
      SubmittedIsQueue(v, b);
      SubmitPendingKeepsUncrossed(v, SubmitAll(v.env, Emptied(b), b.stops.pending).book);
    }
  }
}
