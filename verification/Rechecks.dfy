/** The re-check after an order has come to rest: whom it tries, in which order, and what it finds when
    the new order is all-or-none itself. */
module Rechecks {
  import opened Prices
  import opened Orders
  import opened Books
  import opened Matching
  import opened Faces
  import opened AllOrNone
  import opened Priority
  import opened Accounting
  import opened BookRuns
  import opened WaitingAons
  import opened AonPairs
  import opened Quotes

  // ---- Whom, and in which order ----

  /** The orders are tried one after the other. */
  lemma {:induction false} RecheckedInTurn(env: OrderMap, first: seq<OrderId>, then': seq<OrderId>, aons: seq<Entry>,
                                           market: seq<Entry>, sb: StopBook)
    ensures var c := CheckDeferred(env, first, aons, market, sb);
            var c' := CheckDeferred(env, then', c.aons, c.market, c.stops);
            CheckDeferred(env, first + then', aons, market, sb)
            == Recheck(c'.aons, c'.market, c'.stops, c.fills + c'.fills, c.matched || c'.matched)
    decreases |first|
  {
    hide Matching.MatchOrder, Settle, IndexOf;
    if first == [] {
      assert first + then' == then';
      NothingBefore(CheckDeferred(env, then', aons, market, sb).fills);
    } else {
      assert (first + then')[0] == first[0] && (first + then')[1..] == first[1..] + then';
      var k := IndexOf(aons, first[0]);
      if k == |aons| {
        RecheckedInTurn(env, first[1..], then', aons, market, sb);
      } else {
        var m := MatchOrder(env, aons[k].tracker, aons[k].key.price, market, sb);
        var aons' := Settle(aons, k, m.inbound);
        RecheckedInTurn(env, first[1..], then', aons', m.side, m.stops);
        var c := CheckDeferred(env, first[1..], aons', m.side, m.stops);
        Regroup(m.fills, c.fills, CheckDeferred(env, then', c.aons, c.market, c.stops).fills);
      }
    }
  }

  lemma NothingBefore(fills: seq<Callback>)
    ensures [] + fills == fills
  {
  }

  /** An all-or-none order that is not filled has deferred every crossing all-or-none order that is
      larger than itself, in book order. */
  lemma {:induction false} MatchAonDefers(env: OrderMap, inbound: Tracker, price: nat, done: seq<Entry>,
                                          rest: seq<Entry>, held: seq<OrderId>, heldQty: nat, buySide: bool,
                                          sb: StopBook)
    requires Clean(done + rest) && Held(held, done, price) && Sorted(rest) && OneSided(rest, buySide)
    requires AonSafe(env, inbound, price, done, rest, held, heldQty, sb)
    ensures var m := MatchAon(env, inbound, inbound.openQty, price, done, rest, held, heldQty, sb);
            m.inbound.openQty > 0 ==> m.deferred == AonsOver(rest, price, inbound.openQty)
    decreases |rest|
  {
    hide Held, Clean, Completes, Offered, TryDeferred, AonsOver;
    if inbound.openQty == 0 {
      return;
    }
    if rest == [] || !rest[0].key.Matches(price) {
      if rest != [] {
        NoneCrossesAfter(rest, buySide, price, 0);
      }
      NoneOver(rest, price, inbound.openQty);
      return;
    }
    var e, tail := rest[0], rest[1..];
    var qty, cur := inbound.openQty, e.tracker.openQty;
    NextNode(done, e, tail, rest, buySide);
    HeldNext(done, e, tail, held, price);
    OverNext(rest, price, qty);
    if e.tracker.aon && qty < cur {
      MatchAonDefers(env, inbound, price, done + [e], tail, held, heldQty, buySide, sb);
    } else if cur + heldQty < qty {
      MatchAonDefers(env, inbound, price, done + [e], tail, held + [e.tracker.ptr], heldQty + cur, buySide, sb);
    } else if Completes(env, inbound, e.tracker, Offered(env, inbound, e.tracker, held, done, sb), sb) {
      AonCompletes(env, inbound, price, done, e, tail, held, heldQty, sb);
    } else {
      MatchAonDefers(env, inbound, price, done + [e], tail, held, heldQty, buySide, sb);
      AonPassesOn(env, inbound, price, done, e, tail, held, heldQty, sb);
    }
  }

  lemma OverNext(rest: seq<Entry>, price: nat, qty: nat)
    requires rest != [] && rest[0].key.Matches(price)
    ensures AonsOver(rest, price, qty)
         == if rest[0].tracker.aon && qty < rest[0].tracker.openQty
            then [rest[0].tracker.ptr] + AonsOver(rest[1..], price, qty) else AonsOver(rest[1..], price, qty)
  {
    NoIdBefore(AonsOver(rest[1..], price, qty));
  }

  lemma NoIdBefore(ids: seq<OrderId>)
    ensures [] + ids == ids
  {
  }

  lemma AonLeftDefers(v: View, t: Tracker, price: nat, side: seq<Entry>, buySide: bool, sb: StopBook)
    requires SideOk(v, side, buySide) && Fair(v, t) && IsBuy(v.denv, t.ptr) == !buySide && t.aon
    requires v.priced ==> sb.marketPrice != MARKET_ORDER_PRICE
    ensures var m := MatchOrder(v.env, t, price, side, sb);
            m.inbound.openQty > 0 ==> m.side == side && m.deferred == AonsOver(side, price, t.openQty)
  {
    hide MatchAon, SideOk, Opposed, AonSafe, Runs;
    SideIsGood(v, side, buySide);
    SideIsOpposed(v, t, side, buySide);
    OpposedIsSafe(v, t, side, price, sb);
    MatchOrderRuns(v, t, price, side, sb);
    assert [] + side == side;
    MatchAonDefers(v.env, t, price, [], side, [], 0, buySide, sb);
  }

  /** After an order has come to rest, exactly these are tried again, in book order: the all-or-none
      orders left on the other side that it crosses; only the larger ones when it is all-or-none. */
  lemma RestsAndRechecks(v: View, b: Book, t: Tracker)
    requires Submittable(v, b, t)
    ensures var buy, price := IsBuy(v.denv, t.ptr), PriceOf(v.denv, t.ptr);
            var m, a := MatchOrder(v.env, t, price, b.Side(!buy), b.stops), AddOrder(v.env, b, t, price);
            m.inbound.openQty > 0 && !t.ioc ==>
              var own := Insert(b.Side(buy), Entry(ComparablePrice(buy, price), m.inbound));
              var c := CheckDeferred(v.env, AonsOver(m.side, price, if t.aon then t.openQty else 0), m.side, own,
                                     m.stops);
              a.book.Side(!buy) == c.aons && a.book.Side(buy) == c.market && a.fills == m.fills + c.fills
  {
    hide Matching.MatchOrder, Matching.CheckDeferred, Insert, SideOk, AonsOver, StopsOk;
    var buy, price := IsBuy(v.denv, t.ptr), PriceOf(v.denv, t.ptr);
    FirstMatchKeeps(v, t, price, b.Side(!buy), !buy, b.stops, 0, LiveOf(0));
    StopsArePriced(v, b);
    if t.aon {
      AonLeftDefers(v, t, price, b.Side(!buy), !buy, b.stops);
    } else {
      RegularLeftDefers(v, t, price, b.Side(!buy), !buy, b.stops);
    }
  }

  lemma StopsArePriced(v: View, b: Book)
    requires BookOk(v, b)
    ensures v.priced ==> b.stops.marketPrice != MARKET_ORDER_PRICE
  {
  }

  // ---- When the new order is all-or-none ----

  lemma {:induction false} AonErased(s: seq<Entry>, k: nat, t: Tracker, price: nat)
    requires k < |s| && t == s[k].tracker.(openQty := t.openQty) && t.openQty <= s[k].tracker.openQty
    ensures AonQty(Settle(s, k, t), price) <= AonQty(s, price)
  {
    KindsSplit(s, k, price);
    if t.openQty == 0 {
      AonAppend(s[..k], s[k + 1..], price);
    } else {
      var e := s[k].(tracker := t);
      var s' := s[k := e];
      assert s'[..k] == s[..k] && s'[k + 1..] == s[k + 1..];
      KindsSplit(s', k, price);
      KindsOne(s[k], price);
      KindsOne(e, price);
    }
  }

  lemma {:induction false} KindsTotal(side: seq<Entry>, price: nat)
    ensures CrossingQty(side, price) == RegularQty(side, price) + AonQty(side, price)
  {
    if side != [] {
      KindsTotal(side[1..], price);
    }
  }

  lemma {:induction false} RunLowersCrossing(env: OrderMap, price: nat, f: Face, fills: seq<Callback>, g: Face, p: nat)
    requires Runs(env, price, f, fills, g)
    ensures AonQty(g.side, p) <= AonQty(f.side, p)
    decreases |fills|
  {
    if fills != [] {
      var cb := fills[0];
      var k := IndexOf(f.side, cb.matched);
      AonErased(f.side, k, f.side[k].tracker.Reduce(cb.quantity), p);
      RunLowersCrossing(env, price, ApplyFill(f, cb), fills[1..], g, p);
    }
  }

  ghost predicate CrossesLess(s': seq<Entry>, s: seq<Entry>) {
    forall p :: CrossingQty(s', p) <= CrossingQty(s, p)
  }

  lemma MatchLowersCrossing(v: View, t: Tracker, price: nat, side: seq<Entry>, buySide: bool, sb: StopBook)
    requires SideOk(v, side, buySide) && Fair(v, t) && IsBuy(v.denv, t.ptr) == !buySide
    requires v.priced ==> sb.marketPrice != MARKET_ORDER_PRICE
    ensures CrossesLess(MatchOrder(v.env, t, price, side, sb).side, side)
  {
    hide Matching.MatchOrder, Runs, SideOk, Opposed;
    SideIsOpposed(v, t, side, buySide);
    MatchOrderRuns(v, t, price, side, sb);
    var m := MatchOrder(v.env, t, price, side, sb);
    var f, g := Face(t, side, sb), Face(m.inbound, m.side, m.stops);
    forall p: nat
      ensures CrossingQty(m.side, p) <= CrossingQty(side, p)
    {
      RunLowersCrossing(v.env, price, f, m.fills, g, p);
      RunLowersRegular(v.env, price, f, m.fills, g, p);
      KindsTotal(m.side, p);
      KindsTotal(side, p);
    }
  }

  /** Only the order `t` on this side may be all-or-none. */
  ghost predicate NoOtherAon(side: seq<Entry>, t: Tracker) {
    forall j :: 0 <= j < |side| && side[j].tracker.aon ==> side[j].tracker == t
  }

  ghost predicate Rests(side: seq<Entry>, t: Tracker) {
    exists j :: 0 <= j < |side| && side[j].tracker == t
  }

  /** All that this order crosses would be enough for it. */
  predicate EnoughWith(e: Entry, opposite: seq<Entry>, t: Tracker) {
    e.tracker.aon && t.openQty < e.tracker.openQty <= CrossingQty(opposite, e.key.price)
  }

  ghost predicate ToBeTriedWith(aons: seq<Entry>, market: seq<Entry>, ids: seq<OrderId>, t: Tracker) {
    Rests(market, t) ==> forall k :: 0 <= k < |aons| ==> EnoughWith(aons[k], market, t) ==> aons[k].tracker.ptr in ids
  }

  lemma ShrunkWith(aons': seq<Entry>, aons: seq<Entry>, market': seq<Entry>, market: seq<Entry>, ids: seq<OrderId>,
                   t: Tracker)
    requires ToBeTriedWith(aons, market, ids, t) && t.aon && NoOtherAon(market, t)
    requires ComesFrom(aons', aons) && ComesFrom(market', market) && CrossesLess(market', market)
    ensures ToBeTriedWith(aons', market', ids, t) && NoOtherAon(market', t)
  {
    forall i | 0 <= i < |market'| && market'[i].tracker.aon
      ensures market'[i].tracker == t && Rests(market, t)
    {
      assert HasSource(market'[i], market);
      var j :| 0 <= j < |market| && Shrinks(market'[i], market[j]);
      assert market[j].tracker == t;
    }
    forall i | 0 <= i < |aons'| && EnoughWith(aons'[i], market', t) && Rests(market', t)
      ensures aons'[i].tracker.ptr in ids
    {
      assert HasSource(aons'[i], aons);
      var j :| 0 <= j < |aons| && Shrinks(aons'[i], aons[j]);
      assert CrossingQty(market', aons[j].key.price) <= CrossingQty(market, aons[j].key.price);
      assert EnoughWith(aons[j], market, t);
    }
  }

  /** An all-or-none order that is not filled, facing one smaller all-or-none order, crosses too
      little. */
  lemma LeftCrossesLess(v: View, t': Tracker, price: nat, side: seq<Entry>, buySide: bool, sb: StopBook, t: Tracker)
    requires SideOk(v, side, buySide) && Fair(v, t') && IsBuy(v.denv, t'.ptr) == !buySide && t'.aon && t'.openQty > 0
    requires v.priced ==> sb.marketPrice != MARKET_ORDER_PRICE
    requires NoOtherAon(side, t) && Rests(side, t) && t.aon && t.openQty < t'.openQty
    ensures MatchOrder(v.env, t', price, side, sb).inbound.openQty > 0 ==> CrossingQty(side, price) < t'.openQty
  {
    hide Matching.MatchOrder, SideOk, Fair, Payable, RegularQty, AonQty, CrossingQty, Opposed;
    SideIsGood(v, side, buySide);
    SideIsOpposed(v, t', side, buySide);
    OpposedIsPayable(v, t', side, price, sb);
    var k :| 0 <= k < |side| && side[k].tracker == t;
    OnlyThisAon(side, t, k);
    KindsTotal(side, price);
    OnlyAonQty(side, k, price);
    if side[k].key.Matches(price) {
      AonWithOneExactlyWhen(v.env, t', price, side, buySide, k, sb);
    } else {
      AonLeftWaits(v, t', price, side, buySide, sb);
    }
  }

  lemma OnlyThisAon(side: seq<Entry>, t: Tracker, k: nat)
    requires Clean(side) && NoOtherAon(side, t) && k < |side| && side[k].tracker == t && t.aon
    ensures OnlyAonAt(side, k)
  {
  }

  lemma RecheckOneWith(v: View, ids: seq<OrderId>, aons: seq<Entry>, k: nat, market: seq<Entry>, buySide: bool,
                       sb: StopBook, t: Tracker)
    requires PairOk(v, aons, market, buySide, sb) && ids != [] && ToBeTriedWith(aons, market, ids, t)
    requires k == IndexOf(aons, ids[0]) < |aons| && t.aon && NoOtherAon(market, t)
    ensures var m := MatchOrder(v.env, aons[k].tracker, aons[k].key.price, market, sb);
            var aons' := Settle(aons, k, m.inbound);
            ToBeTriedWith(aons', m.side, ids[1..], t) && NoOtherAon(m.side, t)
  {
    hide Matching.MatchOrder, SideOk, ToBeTriedWith, CrossesLess, EnoughWith, NoOtherAon, Rests;
    var e := aons[k];
    var m := MatchOrder(v.env, e.tracker, e.key.price, market, sb);
    var aons' := Settle(aons, k, m.inbound);
    RestsAt(v, aons, k, buySide);
    RecheckStep(v, aons, k, market, buySide, sb, 0, LiveOf(0));
    FirstMatchKeeps(v, e.tracker, e.key.price, market, !buySide, sb, 0, LiveOf(0));
    MatchLowersCrossing(v, e.tracker, e.key.price, market, !buySide, sb);
    ShrunkWith(aons', aons, m.side, market, ids, t);
    if e.tracker.aon && Rests(market, t) && t.openQty < e.tracker.openQty {
      LeftCrossesLess(v, e.tracker, e.key.price, market, !buySide, sb, t);
    }
    StillRests(m.side, market, t);
    SettledWith(aons, k, m.inbound, m.side, market, ids, t);
  }

  lemma StillRests(market': seq<Entry>, market: seq<Entry>, t: Tracker)
    requires ComesFrom(market', market) && NoOtherAon(market, t) && t.aon
    ensures Rests(market', t) ==> Rests(market, t)
  {
    if Rests(market', t) {
      var i :| 0 <= i < |market'| && market'[i].tracker == t;
      assert HasSource(market'[i], market);
      var j :| 0 <= j < |market| && Shrinks(market'[i], market[j]);
      assert market[j].tracker == t;
    }
  }

  lemma SettledWith(aons: seq<Entry>, k: nat, t': Tracker, market': seq<Entry>, market: seq<Entry>, ids: seq<OrderId>,
                    t: Tracker)
    requires k < |aons| && Clean(aons) && ids != [] && aons[k].tracker.ptr == ids[0]
    requires t' == aons[k].tracker.(openQty := t'.openQty)
    requires ToBeTriedWith(Settle(aons, k, t'), market', ids, t)
    requires Rests(market', t) ==> Rests(market, t)
    requires aons[k].tracker.aon && t'.openQty > 0 ==> t' == aons[k].tracker
    requires aons[k].tracker.aon && t'.openQty > 0 && Rests(market, t) && t.openQty < t'.openQty ==>
               CrossingQty(market, aons[k].key.price) < t'.openQty
    requires CrossesLess(market', market)
    ensures ToBeTriedWith(Settle(aons, k, t'), market', ids[1..], t)
  {
    var s := Settle(aons, k, t');
    assert CrossingQty(market', aons[k].key.price) <= CrossingQty(market, aons[k].key.price);
    SettledAt(aons, k, t');
    if Rests(market', t) {
      forall i | 0 <= i < |s| && EnoughWith(s[i], market', t)
        ensures s[i].tracker.ptr in ids[1..]
      {
        assert s[i].tracker.ptr in ids;
      }
    }
  }

  lemma {:induction false} RecheckMissesNoneWith(v: View, ids: seq<OrderId>, aons: seq<Entry>, market: seq<Entry>,
                                                 buySide: bool, sb: StopBook, t: Tracker)
    requires PairOk(v, aons, market, buySide, sb) && ToBeTriedWith(aons, market, ids, t)
    requires t.aon && NoOtherAon(market, t)
    ensures var c := CheckDeferred(v.env, ids, aons, market, sb); ToBeTriedWith(c.aons, c.market, [], t)
    decreases |ids|
  {
    hide Matching.MatchOrder, SideOk, StopsOk, CrossingQty, EnoughWith, Settle, NoOtherAon;
    if ids == [] {
      return;
    }
    var k := IndexOf(aons, ids[0]);
    if k == |aons| {
      assert ToBeTriedWith(aons, market, ids[1..], t);
      RecheckMissesNoneWith(v, ids[1..], aons, market, buySide, sb, t);
    } else {
      RecheckStep(v, aons, k, market, buySide, sb, 0, LiveOf(0));
      RecheckOneWith(v, ids, aons, k, market, buySide, sb, t);
      var m := MatchOrder(v.env, aons[k].tracker, aons[k].key.price, market, sb);
      RecheckMissesNoneWith(v, ids[1..], Settle(aons, k, m.inbound), m.side, buySide, m.stops, t);
    }
  }

  /** Before the re-check: whoever could be filled with the new order's help crosses it. */
  lemma JoiningAonIsTried(opposite: seq<Entry>, own: seq<Entry>, e: Entry, buy: bool)
    requires AllWaitFor(opposite, own) && OneSided(opposite, !buy) && e.key.buySide == buy
    requires AllRegular(own) && e.tracker.aon
    ensures ToBeTriedWith(opposite, Insert(own, e), AonsOver(opposite, e.key.price, e.tracker.openQty), e.tracker)
    ensures NoOtherAon(Insert(own, e), e.tracker)
  {
    hide Insert, RegularQty, CrossingQty, AonsOver;
    InsertedAon(own, e);
    forall k | 0 <= k < |opposite| && EnoughWith(opposite[k], Insert(own, e), e.tracker)
      ensures opposite[k].tracker.ptr in AonsOver(opposite, e.key.price, e.tracker.openQty)
    {
      var o := opposite[k];
      CrossingInsert(own, e, o.key.price);
      RegularIsCrossing(own, o.key.price);
      assert !CouldFill(o, own);
      MatchesIsSymmetric(if buy then e.key else o.key, if buy then o.key else e.key);
      OverListed(opposite, e.key.price, e.tracker.openQty, k);
    }
  }

  lemma InsertedAon(own: seq<Entry>, e: Entry)
    requires AllRegular(own)
    ensures NoOtherAon(Insert(own, e), e.tracker)
  {
    var s, k := Insert(own, e), InsertPos(own, e.key);
    forall j | 0 <= j < |s|
      ensures s[j].tracker.aon ==> s[j].tracker == e.tracker
    {
      assert j < k ==> s[j] == own[j];
      assert j > k ==> s[j] == own[j - 1];
    }
  }

  lemma CrossingInsert(own: seq<Entry>, e: Entry, price: nat)
    ensures CrossingQty(Insert(own, e), price)
         == CrossingQty(own, price) + if e.key.Matches(price) then e.tracker.openQty else 0
  {
    var k := InsertPos(own, e.key);
    assert own == own[..k] + own[k..];
    CrossingAppend(own[..k] + [e], own[k..], price);
    CrossingAppend(own[..k], [e], price);
    CrossingAppend(own[..k], own[k..], price);
    assert [e][1..] == [];
  }

  /** When an all-or-none order has come to rest among regular orders, and is still there after the
      re-check: no larger all-or-none order opposite could be filled by all that it crosses, the new
      order included. */
  lemma AddedAonLeavesWaiting(v: View, b: Book, t: Tracker, k: nat)
    requires Submittable(v, b, t) && AonsWait(b) && t.aon && AllRegular(b.Side(IsBuy(v.denv, t.ptr)))
    requires var a, buy := AddOrder(v.env, b, t, PriceOf(v.denv, t.ptr)), IsBuy(v.denv, t.ptr);
             && Rests(a.book.Side(buy), t) && k < |a.book.Side(!buy)|
             && a.book.Side(!buy)[k].tracker.aon && t.openQty < a.book.Side(!buy)[k].tracker.openQty
    ensures var a, buy := AddOrder(v.env, b, t, PriceOf(v.denv, t.ptr)), IsBuy(v.denv, t.ptr);
            var e := a.book.Side(!buy)[k];
            CrossingQty(a.book.Side(buy), e.key.price) < e.tracker.openQty
  {
    hide Matching.MatchOrder, Matching.CheckDeferred, Insert, SideOk, StopsOk, AonsOver, AllWaitFor, CrossingQty,
         ToBeTriedWith, RegularQty;
    var buy, price := IsBuy(v.denv, t.ptr), PriceOf(v.denv, t.ptr);
    var own, opposite := b.Side(buy), b.Side(!buy);
    var m, a := MatchOrder(v.env, t, price, opposite, b.stops), AddOrder(v.env, b, t, price);
    FirstMatchKeeps(v, t, price, opposite, !buy, b.stops, 0, LiveOf(0));
    StopsArePriced(v, b);
    RestedAsCame(v, b, t, m, a);
    AonLeftDefers(v, t, price, opposite, !buy, b.stops);
    var e := Entry(ComparablePrice(buy, price), t);
    WaitsBySides(b, buy);
    OwnIsOpen(v, opposite, !buy);
    JoiningAonIsTried(opposite, own, e, buy);
    InsertKeepsSideOk(v, own, e, buy);
    RecheckMissesNoneWith(v, m.deferred, m.side, Insert(own, e), !buy, m.stops, t);
    NoneToBeTried(a.book.Side(!buy), a.book.Side(buy), t, k);
  }

  lemma NoneToBeTried(aons: seq<Entry>, market: seq<Entry>, t: Tracker, k: nat)
    requires ToBeTriedWith(aons, market, [], t) && Rests(market, t) && k < |aons|
    ensures !EnoughWith(aons[k], market, t)
  {
  }

  /** It rests only if its first match has not filled it. */
  lemma RestedAsCame(v: View, b: Book, t: Tracker, m: Match, a: Added)
    requires Submittable(v, b, t) && t.aon && AllRegular(b.Side(IsBuy(v.denv, t.ptr)))
    requires m == MatchOrder(v.env, t, PriceOf(v.denv, t.ptr), b.Side(!IsBuy(v.denv, t.ptr)), b.stops)
    requires a == AddOrder(v.env, b, t, PriceOf(v.denv, t.ptr)) && Rests(a.book.Side(IsBuy(v.denv, t.ptr)), t)
    ensures m.inbound.openQty > 0 && !m.inbound.ioc
  {
    hide Matching.MatchOrder, Matching.CheckDeferred, Insert, SideOk, StopsOk, Rests;
    RegularRestsNone(b.Side(IsBuy(v.denv, t.ptr)), t);
  }

  lemma RegularRestsNone(side: seq<Entry>, t: Tracker)
    requires AllRegular(side) && t.aon
    ensures !Rests(side, t)
  {
  }
}
