/** An all-or-none order only waits as long as the regular orders it crosses do not have enough for
    it: an inbound one takes what they have, and when a new order rests, those that were deferred are
    tried again and none is missed. */
module WaitingAons {
  import opened Prices
  import opened Orders
  import opened Books
  import opened Matching
  import opened Faces
  import opened AllOrNone
  import opened Priority
  import opened Accounting
  import opened BookRuns
  import opened Cascade
  import opened EngineSteps

  /** Open quantity of the regular orders an inbound price crosses. */
  function RegularQty(side: seq<Entry>, price: nat): nat {
    if side == [] then 0
    else (if !side[0].tracker.aon && side[0].key.Matches(price) then side[0].tracker.openQty else 0)
         + RegularQty(side[1..], price)
  }

  /** The regular orders opposite have enough for this all-or-none order. */
  predicate CouldFill(e: Entry, opposite: seq<Entry>) {
    e.tracker.aon && RegularQty(opposite, e.key.price) >= e.tracker.openQty
  }

  ghost predicate AllWaitFor(own: seq<Entry>, opposite: seq<Entry>) {
    forall k :: 0 <= k < |own| ==> !CouldFill(own[k], opposite)
  }

  /** No resting all-or-none order could be filled by the regular orders on the other side. */
  ghost predicate AonsWait(b: Book) {
    AllWaitFor(b.bids, b.asks) && AllWaitFor(b.asks, b.bids)
  }

  // ---- The quantity that regular orders have ----

  lemma {:induction false} RegularAppend(a: seq<Entry>, b: seq<Entry>, price: nat)
    ensures RegularQty(a + b, price) == RegularQty(a, price) + RegularQty(b, price)
  {
    if a == [] {
      assert a + b == b;
    } else {
      assert (a + b)[1..] == a[1..] + b;
      RegularAppend(a[1..], b, price);
    }
  }

  lemma {:induction false} NoRegularQty(side: seq<Entry>, price: nat)
    requires forall k :: 0 <= k < |side| ==> !side[k].key.Matches(price)
    ensures RegularQty(side, price) == 0
  {
    if side != [] {
      NoRegularQty(side[1..], price);
    }
  }

  /** On a side of regular orders this is all that crosses. */
  lemma {:induction false} RegularIsCrossing(side: seq<Entry>, price: nat)
    requires AllRegular(side)
    ensures RegularQty(side, price) == CrossingQty(side, price)
  {
    if side != [] {
      RegularIsCrossing(side[1..], price);
    }
  }

  lemma RegularOne(e: Entry, price: nat)
    ensures RegularQty([e], price) == if !e.tracker.aon && e.key.Matches(price) then e.tracker.openQty else 0
  {
    assert [e][1..] == [];
  }

  lemma RegularSplit(s: seq<Entry>, k: nat, price: nat)
    requires k < |s|
    ensures RegularQty(s, price)
         == RegularQty(s[..k], price) + RegularQty([s[k]], price) + RegularQty(s[k + 1..], price)
  {
    assert s == s[..k] + [s[k]] + s[k + 1..];
    RegularAppend(s[..k] + [s[k]], s[k + 1..], price);
    RegularAppend(s[..k], [s[k]], price);
  }

  lemma RegularErase(s: seq<Entry>, k: nat, price: nat)
    requires k < |s|
    ensures RegularQty(Erase(s, k), price) <= RegularQty(s, price)
  {
    RegularSplit(s, k, price);
    RegularAppend(s[..k], s[k + 1..], price);
  }

  lemma RegularSettle(s: seq<Entry>, k: nat, t: Tracker, price: nat)
    requires k < |s| && t == s[k].tracker.(openQty := t.openQty) && t.openQty <= s[k].tracker.openQty
    ensures RegularQty(Settle(s, k, t), price) <= RegularQty(s, price)
  {
    if t.openQty == 0 {
      RegularErase(s, k, price);
    } else {
      var e := s[k].(tracker := t);
      var s' := s[k := e];
      assert s'[..k] == s[..k] && s'[k + 1..] == s[k + 1..];
      RegularSplit(s, k, price);
      RegularSplit(s', k, price);
      RegularOne(s[k], price);
      RegularOne(e, price);
    }
  }

  lemma RegularInsert(s: seq<Entry>, e: Entry, price: nat)
    ensures RegularQty(Insert(s, e), price) == RegularQty(s, price) + RegularQty([e], price)
  {
    var k := InsertPos(s, e.key);
    assert s == s[..k] + s[k..];
    RegularAppend(s[..k] + [e], s[k..], price);
    RegularAppend(s[..k], [e], price);
    RegularAppend(s[..k], s[k..], price);
  }

  /** A run of fills leaves the regular orders with no more than they had. */
  lemma {:induction false} RunLowersRegular(env: OrderMap, price: nat, f: Face, fills: seq<Callback>, g: Face, p: nat)
    requires Runs(env, price, f, fills, g)
    ensures RegularQty(g.side, p) <= RegularQty(f.side, p)
    decreases |fills|
  {
    if fills != [] {
      var cb := fills[0];
      var k := IndexOf(f.side, cb.matched);
      RegularSettle(f.side, k, f.side[k].tracker.Reduce(cb.quantity), p);
      RunLowersRegular(env, price, ApplyFill(f, cb), fills[1..], g, p);
    }
  }

  // ---- An inbound all-or-none order takes what regular orders have ----

  lemma {:induction false} PlanAppend(ids: seq<OrderId>, id: OrderId, side: seq<Entry>, left: nat)
    ensures var found, k := PlanQty(ids, side, left), IndexOf(side, id);
            PlanQty(ids + [id], side, left)
            == found + if k < |side| then Share(side[k].tracker, left - found) else 0
    decreases |ids|
  {
    hide IndexOf;
    if ids == [] {
      assert [] + [id] == [id] && [id][1..] == [];
    } else {
      assert (ids + [id])[0] == ids[0] && (ids + [id])[1..] == ids[1..] + [id];
      if left != 0 {
        var k := IndexOf(side, ids[0]);
        var q := if k < |side| then Share(side[k].tracker, left) else 0;
        PlanAppend(ids[1..], id, side, left - q);
      }
    }
  }

  lemma {:induction false} PlanOnLonger(ids: seq<OrderId>, side: seq<Entry>, e: Entry, left: nat, price: nat)
    requires Held(ids, side, price)
    ensures PlanQty(ids, side + [e], left) == PlanQty(ids, side, left)
    decreases |ids|
  {
    hide IndexOf, Share;
    if ids != [] && left != 0 {
      assert Crossing(side, ids[0], price);
      IndexOfAppend(side, [e], ids[0]);
      HeldTail(ids, side, price);
      PlanOnLonger(ids[1..], side, e, left - Share(side[IndexOf(side, ids[0])].tracker, left), price);
    }
  }

  /** What is held can be given completely: the orders held are less than what is wanted. */
  ghost predicate GivesAll(held: seq<OrderId>, heldQty: nat, side: seq<Entry>, qty: nat) {
    PlanQty(held, side, qty) == heldQty < qty
  }

  lemma GivesAllNext(held: seq<OrderId>, heldQty: nat, done: seq<Entry>, e: Entry, qty: nat, price: nat)
    requires GivesAll(held, heldQty, done, qty) && Held(held, done, price) && Distinct(done + [e])
    ensures GivesAll(held, heldQty, done + [e], qty)
    ensures heldQty + e.tracker.openQty < qty ==>
              GivesAll(held + [e.tracker.ptr], heldQty + e.tracker.openQty, done + [e], qty)
  {
    PlanOnLonger(held, done, e, qty, price);
    PlanAppend(held, e.tracker.ptr, done + [e], qty);
    assert (done + [e])[|done|] == e;
    IndexOfUnique(done + [e], |done|);
  }

  /** At a regular order with which there is enough, the match is complete. */
  lemma RegularCompletes(env: OrderMap, inbound: Tracker, price: nat, done: seq<Entry>, e: Entry, tail: seq<Entry>,
                         held: seq<OrderId>, heldQty: nat, sb: StopBook)
    requires Clean(done + [e] + tail) && Held(held, done, price) && e.key.Matches(price) && !e.tracker.aon
    requires Payable(env, inbound, done + [e] + tail, price, sb) && GivesAll(held, heldQty, done, inbound.openQty)
    requires e.tracker.openQty + heldQty >= inbound.openQty
    ensures MatchAon(env, inbound, inbound.openQty, price, done, [e] + tail, held, heldQty, sb).inbound.openQty == 0
  {
    hide MatchAon, PaidQty, PlanQty, Runs;
    PayableParts(env, inbound, done + [e], tail, price, sb);
    PayableParts(env, inbound, done, [e], price, sb);
    PayableFor(env, inbound, [e], price, sb, 0);
    PayableIsPaid(env, inbound, price, held, done, inbound.openQty, sb);
    AonCompletes(env, inbound, price, done, e, tail, held, heldQty, sb);
  }

  /** An all-or-none order that meets regular orders with enough for it is filled, whatever
      all-or-none orders are between them. */
  lemma {:induction false} AonTakesRegular(env: OrderMap, inbound: Tracker, price: nat, done: seq<Entry>,
                                           rest: seq<Entry>, held: seq<OrderId>, heldQty: nat, buySide: bool,
                                           sb: StopBook)
    requires Clean(done + rest) && Held(held, done, price) && Sorted(rest) && OneSided(rest, buySide)
    requires Payable(env, inbound, done + rest, price, sb) && GivesAll(held, heldQty, done, inbound.openQty)
    requires heldQty + RegularQty(rest, price) >= inbound.openQty
    ensures MatchAon(env, inbound, inbound.openQty, price, done, rest, held, heldQty, sb).inbound.openQty == 0
    decreases |rest|
  {
    hide Held, Payable, GivesAll, Clean, Completes, Offered, TryDeferred;
    var qty := inbound.openQty;
    assert heldQty < qty by { GivesLess(held, heldQty, done, qty); }
    if rest == [] || !rest[0].key.Matches(price) {
      if rest != [] {
        NoneCrossesAfter(rest, buySide, price, 0);
      }
      NoRegularQty(rest, price);
      return;
    }
    var e, tail := rest[0], rest[1..];
    var cur := e.tracker.openQty;
    NextNode(done, e, tail, rest, buySide);
    HeldNext(done, e, tail, held, price);
    DistinctPrefix(done, e, tail);
    GivesAllNext(held, heldQty, done, e, qty, price);
    if e.tracker.aon && qty < cur {
      AonTakesRegular(env, inbound, price, done + [e], tail, held, heldQty, buySide, sb);
    } else if cur + heldQty < qty {
      AonTakesRegular(env, inbound, price, done + [e], tail, held + [e.tracker.ptr], heldQty + cur, buySide, sb);
    } else if !e.tracker.aon {
      RegularCompletes(env, inbound, price, done, e, tail, held, heldQty, sb);
    } else {
      AonTakesRegular(env, inbound, price, done + [e], tail, held, heldQty, buySide, sb);
      AonTried(env, inbound, price, done, e, tail, held, heldQty, sb);
    }
  }

  lemma GivesLess(held: seq<OrderId>, heldQty: nat, side: seq<Entry>, qty: nat)
    requires GivesAll(held, heldQty, side, qty)
    ensures heldQty < qty
  {
  }

  lemma NextNode(done: seq<Entry>, e: Entry, tail: seq<Entry>, rest: seq<Entry>, buySide: bool)
    requires rest != [] && e == rest[0] && tail == rest[1..] && Sorted(rest) && OneSided(rest, buySide)
    ensures [e] + tail == rest && done + [e] + tail == done + rest && done + ([e] + tail) == done + rest
    ensures Sorted(tail) && OneSided(tail, buySide)
  {
  }

  lemma DistinctPrefix(done: seq<Entry>, e: Entry, tail: seq<Entry>)
    requires Clean(done + [e] + tail)
    ensures Distinct(done + [e])
  {
    assert forall k :: 0 <= k < |done| + 1 ==> (done + [e])[k] == (done + [e] + tail)[k];
  }

  /** A try completes the match, or it changes nothing. */
  lemma AonTried(env: OrderMap, inbound: Tracker, price: nat, done: seq<Entry>, e: Entry, tail: seq<Entry>,
                 held: seq<OrderId>, heldQty: nat, sb: StopBook)
    requires Clean(done + [e] + tail) && Held(held, done, price) && e.key.Matches(price)
    requires Payable(env, inbound, done + [e] + tail, price, sb)
    requires 0 < inbound.openQty <= e.tracker.openQty + heldQty
    requires e.tracker.aon ==> e.tracker.openQty <= inbound.openQty
    requires MatchAon(env, inbound, inbound.openQty, price, done + [e], tail, held, heldQty, sb).inbound.openQty == 0
    ensures MatchAon(env, inbound, inbound.openQty, price, done, [e] + tail, held, heldQty, sb).inbound.openQty == 0
  {
    hide MatchAon, PaidQty, PlanQty, Runs, Held;
    assert done + [e] + tail == done + ([e] + tail);
    HeldNext(done, e, tail, held, price);
    PayableParts(env, inbound, done + [e], tail, price, sb);
    PayableParts(env, inbound, done, [e], price, sb);
    PayableFor(env, inbound, [e], price, sb, 0);
    PayableIsPaid(env, inbound, price, held, done, MaxFrom(e.tracker, inbound.openQty), sb);
    if Completes(env, inbound, e.tracker, Offered(env, inbound, e.tracker, held, done, sb), sb) {
      AonCompletes(env, inbound, price, done, e, tail, held, heldQty, sb);
    } else {
      AonPassesOn(env, inbound, price, done, e, tail, held, heldQty, sb);
    }
  }

  /** A whole match: an all-or-none order is left over only when the regular orders it crosses do not
      have enough. */
  lemma AonLeftWaits(v: View, t: Tracker, price: nat, side: seq<Entry>, buySide: bool, sb: StopBook)
    requires SideOk(v, side, buySide) && Fair(v, t) && IsBuy(v.denv, t.ptr) == !buySide && t.aon && t.openQty > 0
    requires v.priced ==> sb.marketPrice != MARKET_ORDER_PRICE
    ensures MatchOrder(v.env, t, price, side, sb).inbound.openQty > 0 ==> RegularQty(side, price) < t.openQty
  {
    hide MatchAon, SideOk;
    assert Sorted(side) && OneSided(side, buySide) by { SideIsGood(v, side, buySide); }
    SideIsOpposed(v, t, side, buySide);
    OpposedIsPayable(v, t, side, price, sb);
    assert [] + side == side;
    if RegularQty(side, price) >= t.openQty {
      AonTakesRegular(v.env, t, price, [], side, [], 0, buySide, sb);
    }
  }

  lemma SideIsGood(v: View, side: seq<Entry>, buySide: bool)
    requires SideOk(v, side, buySide)
    ensures GoodSide(side, buySide)
  {
  }

  lemma OpposedIsPayable(v: View, t: Tracker, side: seq<Entry>, price: nat, sb: StopBook)
    requires Opposed(v, t, side) && t.aon && (v.priced ==> sb.marketPrice != MARKET_ORDER_PRICE)
    ensures Payable(v.env, t, side, price, sb)
  {
  }

  // ---- A regular order passes over all-or-none orders ----

  /** With every all-or-none order a trade finds a price. */
  ghost predicate PaidByAons(env: OrderMap, inbound: Tracker, side: seq<Entry>, sb: StopBook) {
    forall k :: 0 <= k < |side| && side[k].tracker.aon ==> PaysFor(env, inbound, side[k].tracker, sb)
  }

  /** The all-or-none orders that cross a price and are open for more than some quantity, in book
      order. */
  function AonsOver(side: seq<Entry>, price: nat, qty: nat): seq<OrderId> {
    if side == [] then []
    else (if side[0].tracker.aon && side[0].key.Matches(price) && qty < side[0].tracker.openQty
          then [side[0].tracker.ptr] else [])
         + AonsOver(side[1..], price, qty)
  }

  lemma {:induction false} OverAppend(a: seq<Entry>, b: seq<Entry>, price: nat, qty: nat)
    ensures AonsOver(a + b, price, qty) == AonsOver(a, price, qty) + AonsOver(b, price, qty)
  {
    if a == [] {
      assert a + b == b;
    } else {
      assert (a + b)[0] == a[0] && (a + b)[1..] == a[1..] + b;
      OverAppend(a[1..], b, price, qty);
    }
  }

  lemma {:induction false} NoneOver(side: seq<Entry>, price: nat, qty: nat)
    requires forall k :: 0 <= k < |side| ==> !side[k].key.Matches(price)
    ensures AonsOver(side, price, qty) == []
  {
    if side != [] {
      NoneOver(side[1..], price, qty);
    }
  }

  lemma OverOne(e: Entry, price: nat, qty: nat)
    ensures AonsOver([e], price, qty)
         == if e.tracker.aon && e.key.Matches(price) && qty < e.tracker.openQty then [e.tracker.ptr] else []
  {
    assert [e][1..] == [];
  }

  lemma {:induction false} OverListed(side: seq<Entry>, price: nat, qty: nat, k: nat)
    requires k < |side| && side[k].tracker.aon && side[k].key.Matches(price) && qty < side[k].tracker.openQty
    ensures side[k].tracker.ptr in AonsOver(side, price, qty)
  {
    if k > 0 {
      OverListed(side[1..], price, qty, k - 1);
    }
  }

  /** A trade with an all-or-none order that is not too large takes it whole. */
  lemma TakesAon(env: OrderMap, inbound: Tracker, rest: seq<Entry>, sb: StopBook)
    requires rest != [] && PaidByAons(env, inbound, rest, sb)
    requires rest[0].tracker.aon ==> rest[0].tracker.openQty <= inbound.openQty
    ensures var t := CreateTrade(env, inbound, rest[0].tracker, inbound.openQty, sb);
            && PaidByAons(env, t.inbound, rest[1..], t.stops)
            && t.current.aon == rest[0].tracker.aon && (t.current.aon ==> t.current.openQty == 0)
  {
  }

  lemma OverPast(done: seq<Entry>, e: Entry, t: Tracker, price: nat)
    requires t.aon ==> t.openQty == 0
    ensures AonsOver(Past(done, e, t), price, 0) == AonsOver(done, price, 0)
  {
    OverAppend(done, [e.(tracker := t)], price, 0);
    OverOne(e.(tracker := t), price, 0);
  }

  /** A regular order that comes out unfilled has deferred every crossing all-or-none order that is
      still there, in book order. */
  lemma {:induction false} MatchRegularDefers(env: OrderMap, inbound: Tracker, price: nat, done: seq<Entry>,
                                              rest: seq<Entry>, buySide: bool, sb: StopBook)
    requires AllOpen(rest) && Sorted(rest) && OneSided(rest, buySide) && PaidByAons(env, inbound, rest, sb)
    ensures var m := MatchRegular(env, inbound, price, done, rest, sb);
            m.inbound.openQty > 0 ==> AonsOver(m.side, price, 0) == AonsOver(done, price, 0) + m.deferred
    decreases |rest|
  {
    hide CreateTrade, PaysFor, Past, AonsOver;
    if inbound.openQty == 0 {
      return;
    }
    if rest == [] || !rest[0].key.Matches(price) {
      NothingToDefer(done, rest, price, buySide);
      return;
    }
    var e, tail := rest[0], rest[1..];
    TailIsOrdered(rest, buySide);
    if e.tracker.aon && inbound.openQty < e.tracker.openQty {
      MatchRegularDefers(env, inbound, price, done + [e], tail, buySide, sb);
      OverAppend(done, [e], price, 0);
      OverOne(e, price, 0);
      var m := MatchRegular(env, inbound, price, done + [e], tail, sb);
      DeferredInTurn(AonsOver(done, price, 0), e.tracker.ptr, m.deferred);
    } else {
      var t := CreateTrade(env, inbound, e.tracker, inbound.openQty, sb);
      TakesAon(env, inbound, rest, sb);
      OverPast(done, e, t.current, price);
      MatchRegularDefers(env, t.inbound, price, Past(done, e, t.current), tail, buySide, t.stops);
    }
  }

  lemma DeferredInTurn(a: seq<OrderId>, id: OrderId, b: seq<OrderId>)
    ensures a + [id] + b == a + ([id] + b)
  {
  }

  lemma NothingToDefer(done: seq<Entry>, rest: seq<Entry>, price: nat, buySide: bool)
    requires Sorted(rest) && OneSided(rest, buySide) && (rest == [] || !rest[0].key.Matches(price))
    ensures AonsOver(done + rest, price, 0) == AonsOver(done, price, 0) + []
  {
    OverAppend(done, rest, price, 0);
    if rest != [] {
      NoneCrossesAfter(rest, buySide, price, 0);
    }
    NoneOver(rest, price, 0);
  }

  lemma OpposedPays(v: View, t: Tracker, side: seq<Entry>, sb: StopBook)
    requires Opposed(v, t, side) && (v.priced ==> sb.marketPrice != MARKET_ORDER_PRICE)
    ensures PaidByAons(v.env, t, side, sb)
  {
  }

  lemma RegularLeftDefers(v: View, t: Tracker, price: nat, side: seq<Entry>, buySide: bool, sb: StopBook)
    requires SideOk(v, side, buySide) && Fair(v, t) && IsBuy(v.denv, t.ptr) == !buySide && !t.aon
    requires v.priced ==> sb.marketPrice != MARKET_ORDER_PRICE
    ensures var m := MatchOrder(v.env, t, price, side, sb);
            m.inbound.openQty > 0 ==> m.deferred == AonsOver(m.side, price, 0)
  {
    hide MatchRegular, SideOk, Opposed;
    SideIsGood(v, side, buySide);
    SideIsOpposed(v, t, side, buySide);
    OpposedPays(v, t, side, sb);
    MatchRegularDefers(v.env, t, price, [], side, buySide, sb);
    NoneBeforeDeferred(MatchRegular(v.env, t, price, [], side, sb).deferred);
  }

  lemma NoneBeforeDeferred(ids: seq<OrderId>)
    ensures [] + ids == ids
  {
  }

  // ---- The re-check misses nothing ----

  /** Every all-or-none order that the regular orders opposite could fill is still to be tried. */
  ghost predicate ToBeTried(aons: seq<Entry>, market: seq<Entry>, ids: seq<OrderId>) {
    forall k :: 0 <= k < |aons| ==> CouldFill(aons[k], market) ==> aons[k].tracker.ptr in ids
  }

  ghost predicate NoMoreRegular(s': seq<Entry>, s: seq<Entry>) {
    forall p :: RegularQty(s', p) <= RegularQty(s, p)
  }

  lemma ShrunkIsNotTried(aons': seq<Entry>, aons: seq<Entry>, market': seq<Entry>, market: seq<Entry>,
                         ids: seq<OrderId>)
    requires ToBeTried(aons, market, ids) && ComesFrom(aons', aons) && NoMoreRegular(market', market)
    ensures ToBeTried(aons', market', ids)
  {
    forall i | 0 <= i < |aons'| && CouldFill(aons'[i], market')
      ensures aons'[i].tracker.ptr in ids
    {
      assert HasSource(aons'[i], aons);
      var j :| 0 <= j < |aons| && Shrinks(aons'[i], aons[j]);
      assert RegularQty(market', aons[j].key.price) <= RegularQty(market, aons[j].key.price);
      assert CouldFill(aons[j], market);
    }
  }

  lemma MatchLowersRegular(v: View, t: Tracker, price: nat, side: seq<Entry>, buySide: bool, sb: StopBook)
    requires SideOk(v, side, buySide) && Fair(v, t) && IsBuy(v.denv, t.ptr) == !buySide
    requires v.priced ==> sb.marketPrice != MARKET_ORDER_PRICE
    ensures NoMoreRegular(MatchOrder(v.env, t, price, side, sb).side, side)
  {
    hide Matching.MatchOrder, Runs, SideOk, Opposed;
    SideIsOpposed(v, t, side, buySide);
    MatchOrderRuns(v, t, price, side, sb);
    var m := MatchOrder(v.env, t, price, side, sb);
    forall p: nat
      ensures RegularQty(m.side, p) <= RegularQty(side, p)
    {
      RunLowersRegular(v.env, price, Face(t, side, sb), m.fills, Face(m.inbound, m.side, m.stops), p);
    }
  }

  lemma SettleLowersRegular(s: seq<Entry>, k: nat, t: Tracker)
    requires k < |s| && t == s[k].tracker.(openQty := t.openQty) && t.openQty <= s[k].tracker.openQty
    ensures NoMoreRegular(Settle(s, k, t), s)
  {
    forall p: nat
      ensures RegularQty(Settle(s, k, t), p) <= RegularQty(s, p)
    {
      RegularSettle(s, k, t, p);
    }
  }

  /** One order tried again: it need not be tried any more, and no other needs to for the first time. */
  lemma RecheckOne(v: View, ids: seq<OrderId>, aons: seq<Entry>, k: nat, market: seq<Entry>, buySide: bool,
                   sb: StopBook)
    requires PairOk(v, aons, market, buySide, sb) && ids != [] && ToBeTried(aons, market, ids)
    requires k == IndexOf(aons, ids[0]) < |aons|
    ensures var m := MatchOrder(v.env, aons[k].tracker, aons[k].key.price, market, sb);
            var aons' := Settle(aons, k, m.inbound);
            && ToBeTried(aons', m.side, ids[1..])
            && NoMoreRegular(aons', aons) && NoMoreRegular(m.side, market)
  {
    hide Matching.MatchOrder, SideOk, ToBeTried, NoMoreRegular, CouldFill;
    var e := aons[k];
    var m := MatchOrder(v.env, e.tracker, e.key.price, market, sb);
    var aons' := Settle(aons, k, m.inbound);
    RestsAt(v, aons, k, buySide);
    RecheckStep(v, aons, k, market, buySide, sb, 0, LiveOf(0));
    FirstMatchKeeps(v, e.tracker, e.key.price, market, !buySide, sb, 0, LiveOf(0));
    MatchLowersRegular(v, e.tracker, e.key.price, market, !buySide, sb);
    SettleLowersRegular(aons, k, m.inbound);
    ShrunkIsNotTried(aons', aons, m.side, market, ids);
    if e.tracker.aon {
      AonLeftWaits(v, e.tracker, e.key.price, market, !buySide, sb);
    }
    SettledIsTried(aons, k, m.inbound, m.side, market, ids);
  }

  lemma RestsAt(v: View, s: seq<Entry>, k: nat, buySide: bool)
    requires SideOk(v, s, buySide) && k < |s|
    ensures Fair(v, s[k].tracker) && IsBuy(v.denv, s[k].tracker.ptr) == buySide && s[k].tracker.openQty > 0
    ensures Clean(s)
  {
    assert Resting(v, s[k], buySide);
  }

  lemma SettledIsTried(aons: seq<Entry>, k: nat, t: Tracker, market': seq<Entry>, market: seq<Entry>,
                       ids: seq<OrderId>)
    requires k < |aons| && Clean(aons) && ids != [] && aons[k].tracker.ptr == ids[0]
    requires t == aons[k].tracker.(openQty := t.openQty)
    requires ToBeTried(Settle(aons, k, t), market', ids)
    requires aons[k].tracker.aon && t.openQty > 0 ==>
               t == aons[k].tracker && RegularQty(market, aons[k].key.price) < t.openQty
    requires NoMoreRegular(market', market)
    ensures ToBeTried(Settle(aons, k, t), market', ids[1..])
  {
    var s := Settle(aons, k, t);
    assert RegularQty(market', aons[k].key.price) <= RegularQty(market, aons[k].key.price);
    SettledAt(aons, k, t);
    forall i | 0 <= i < |s| && CouldFill(s[i], market')
      ensures s[i].tracker.ptr in ids[1..]
    {
      assert s[i].tracker.ptr in ids;
    }
  }

  lemma SettledAt(s: seq<Entry>, k: nat, t: Tracker)
    requires k < |s| && Clean(s) && t.ptr == s[k].tracker.ptr
    ensures forall i :: 0 <= i < |Settle(s, k, t)| && Settle(s, k, t)[i].tracker.ptr == t.ptr ==>
              t.openQty > 0 && Settle(s, k, t)[i] == s[k].(tracker := t)
  {
    var s' := Erase(s, k);
    assert forall i :: 0 <= i < |s'| ==> s'[i] == s[if i < k then i else i + 1];
  }

  lemma NoMoreRegularTransitive(a: seq<Entry>, b: seq<Entry>, c: seq<Entry>)
    requires NoMoreRegular(a, b) && NoMoreRegular(b, c)
    ensures NoMoreRegular(a, c)
  {
    forall p: nat
      ensures RegularQty(a, p) <= RegularQty(c, p)
    {
      assert RegularQty(a, p) <= RegularQty(b, p);
    }
  }

  /** When all of them have been tried, none is left that could be filled. */
  lemma {:induction false} RecheckMissesNone(v: View, ids: seq<OrderId>, aons: seq<Entry>, market: seq<Entry>,
                                             buySide: bool, sb: StopBook)
    requires PairOk(v, aons, market, buySide, sb) && ToBeTried(aons, market, ids)
    ensures var c := CheckDeferred(v.env, ids, aons, market, sb);
            && AllWaitFor(c.aons, c.market)
            && NoMoreRegular(c.aons, aons) && NoMoreRegular(c.market, market)
    decreases |ids|
  {
    hide Matching.MatchOrder, SideOk, StopsOk, RegularQty, CouldFill, Settle;
    if ids == [] {
      return;
    }
    var k := IndexOf(aons, ids[0]);
    if k == |aons| {
      assert ToBeTried(aons, market, ids[1..]);
      RecheckMissesNone(v, ids[1..], aons, market, buySide, sb);
    } else {
      RecheckStep(v, aons, k, market, buySide, sb, 0, LiveOf(0));
      RecheckOne(v, ids, aons, k, market, buySide, sb);
      var m := MatchOrder(v.env, aons[k].tracker, aons[k].key.price, market, sb);
      var aons' := Settle(aons, k, m.inbound);
      RecheckMissesNone(v, ids[1..], aons', m.side, buySide, m.stops);
      var c := CheckDeferred(v.env, ids[1..], aons', m.side, m.stops);
      NoMoreRegularTransitive(c.aons, aons', aons);
      NoMoreRegularTransitive(c.market, m.side, market);
    }
  }

  // ---- A submission ----

  lemma ShrunkWaits(own': seq<Entry>, own: seq<Entry>, opposite': seq<Entry>, opposite: seq<Entry>)
    requires AllWaitFor(own, opposite) && ComesFrom(own', own) && NoMoreRegular(opposite', opposite)
    ensures AllWaitFor(own', opposite')
  {
    assert ToBeTried(own, opposite, []);
    ShrunkIsNotTried(own', own, opposite', opposite, []);
    assert ToBeTried(own', opposite', []);
  }

  /** Once the new order rests, only deferred orders may have become possible to fill. */
  lemma JoiningIsTried(m: Match, own: seq<Entry>, e: Entry, buy: bool)
    requires AllWaitFor(m.side, own) && OneSided(m.side, !buy) && AllOpen(m.side) && e.key.buySide == buy
    requires e.tracker.aon || m.deferred == AonsOver(m.side, e.key.price, 0)
    ensures ToBeTried(m.side, Insert(own, e), m.deferred)
  {
    hide Insert, RegularQty;
    forall k | 0 <= k < |m.side| && CouldFill(m.side[k], Insert(own, e))
      ensures m.side[k].tracker.ptr in m.deferred
    {
      var o := m.side[k];
      RegularInsert(own, e, o.key.price);
      RegularOne(e, o.key.price);
      assert !CouldFill(o, own);
      MatchesIsSymmetric(if buy then e.key else o.key, if buy then o.key else e.key);
      OverListed(m.side, e.key.price, 0, k);
    }
  }

  lemma JoinedWaits(own: seq<Entry>, e: Entry, opposite: seq<Entry>)
    requires AllWaitFor(own, opposite) && !CouldFill(e, opposite)
    ensures AllWaitFor(Insert(own, e), opposite)
  {
    var k := InsertPos(own, e.key);
    forall i | 0 <= i < |own| + 1
      ensures !CouldFill(Insert(own, e)[i], opposite)
    {
      assert i < k ==> Insert(own, e)[i] == own[i];
      assert i > k ==> Insert(own, e)[i] == own[i - 1];
    }
  }

  ghost predicate BothWait(own: seq<Entry>, opposite: seq<Entry>) {
    AllWaitFor(own, opposite) && AllWaitFor(opposite, own)
  }

  lemma WaitsBySides(b: Book, buy: bool)
    ensures AonsWait(b) <==> BothWait(b.Side(buy), b.Side(!buy))
  {
  }

  lemma NoMoreRegularSelf(s: seq<Entry>)
    ensures NoMoreRegular(s, s)
  {
  }

  /** The first match of a submission only takes away. */
  lemma FirstMatchWaits(v: View, b: Book, t: Tracker, m: Match)
    requires Submittable(v, b, t) && AonsWait(b)
    requires m == MatchOrder(v.env, t, PriceOf(v.denv, t.ptr), b.Side(!IsBuy(v.denv, t.ptr)), b.stops)
    ensures BothWait(b.Side(IsBuy(v.denv, t.ptr)), m.side)
  {
    hide Matching.MatchOrder, SideOk, AllWaitFor, ComesFrom, NoMoreRegular;
    var buy, price := IsBuy(v.denv, t.ptr), PriceOf(v.denv, t.ptr);
    var own, opposite := b.Side(buy), b.Side(!buy);
    WaitsBySides(b, buy);
    FirstMatchKeeps(v, t, price, opposite, !buy, b.stops, 0, LiveOf(0));
    MatchLowersRegular(v, t, price, opposite, !buy, b.stops);
    OwnIsOpen(v, own, buy);
    ComesFromSelf(own);
    NoMoreRegularSelf(own);
    ShrunkWaits(own, own, m.side, opposite);
    ShrunkWaits(m.side, opposite, own, own);
  }

  lemma OwnIsOpen(v: View, s: seq<Entry>, buySide: bool)
    requires SideOk(v, s, buySide)
    ensures AllOpen(s) && OneSided(s, buySide)
  {
  }

  /** What is left of an all-or-none order cannot be filled; and of a regular order, it may give to
      the orders that were deferred. */
  lemma RestAfterMatch(v: View, b: Book, t: Tracker, m: Match)
    requires Submittable(v, b, t) && AonsWait(b)
    requires m == MatchOrder(v.env, t, PriceOf(v.denv, t.ptr), b.Side(!IsBuy(v.denv, t.ptr)), b.stops)
    requires m.inbound.openQty > 0
    ensures var e := Entry(ComparablePrice(IsBuy(v.denv, t.ptr), PriceOf(v.denv, t.ptr)), m.inbound);
            !CouldFill(e, m.side) && ToBeTried(m.side, Insert(b.Side(IsBuy(v.denv, t.ptr)), e), m.deferred)
  {
    hide Matching.MatchOrder, SideOk, AllWaitFor, ComesFrom, NoMoreRegular, ToBeTried, RegularQty, AonsOver, Insert;
    var buy, price := IsBuy(v.denv, t.ptr), PriceOf(v.denv, t.ptr);
    var own, opposite := b.Side(buy), b.Side(!buy);
    var e := Entry(ComparablePrice(buy, price), m.inbound);
    FirstMatchKeeps(v, t, price, opposite, !buy, b.stops, 0, LiveOf(0));
    FirstMatchWaits(v, b, t, m);
    OwnIsOpen(v, m.side, !buy);
    if t.aon {
      AonLeftWaits(v, t, price, opposite, !buy, b.stops);
      MatchLowersRegular(v, t, price, opposite, !buy, b.stops);
      LessIsNotEnough(m.side, opposite, price);
    } else {
      RegularLeftDefers(v, t, price, opposite, !buy, b.stops);
    }
    JoiningIsTried(m, own, e, buy);
  }

  lemma LessIsNotEnough(s': seq<Entry>, s: seq<Entry>, price: nat)
    requires NoMoreRegular(s', s)
    ensures RegularQty(s', price) <= RegularQty(s, price)
  {
  }

  /** The re-check leaves both sides waiting. */
  lemma RecheckedWaits(v: View, b: Book, t: Tracker, m: Match)
    requires Submittable(v, b, t) && AonsWait(b)
    requires m == MatchOrder(v.env, t, PriceOf(v.denv, t.ptr), b.Side(!IsBuy(v.denv, t.ptr)), b.stops)
    requires m.inbound.openQty > 0 && !m.inbound.ioc
    ensures var e := Entry(ComparablePrice(IsBuy(v.denv, t.ptr), PriceOf(v.denv, t.ptr)), m.inbound);
            var c := CheckDeferred(v.env, m.deferred, m.side, Insert(b.Side(IsBuy(v.denv, t.ptr)), e), m.stops);
            BothWait(c.market, c.aons)
  {
    hide Matching.MatchOrder, Matching.CheckDeferred, SideOk, StopsOk, AllWaitFor, ComesFrom, NoMoreRegular, ToBeTried,
         RegularQty, CouldFill, Insert;
    var buy, price := IsBuy(v.denv, t.ptr), PriceOf(v.denv, t.ptr);
    var e := Entry(ComparablePrice(buy, price), m.inbound);
    var own := Insert(b.Side(buy), e);
    FirstMatchKeeps(v, t, price, b.Side(!buy), !buy, b.stops, 0, LiveOf(0));
    FirstMatchWaits(v, b, t, m);
    RestAfterMatch(v, b, t, m);
    JoinedWaits(b.Side(buy), e, m.side);
    InsertKeepsSideOk(v, b.Side(buy), e, buy);
    RecheckMissesNone(v, m.deferred, m.side, own, !buy, m.stops);
    CheckDeferredKeeps(v, m.deferred, m.side, own, !buy, m.stops, 0, LiveOf(0));
    var c := CheckDeferred(v.env, m.deferred, m.side, own, m.stops);
    ShrunkWaits(c.market, own, c.aons, m.side);
  }

  /** After a submission, re-checks included, no resting all-or-none order could be filled. */
  lemma AddOrderKeepsWaiting(v: View, b: Book, t: Tracker)
    requires Submittable(v, b, t) && AonsWait(b)
    ensures AonsWait(AddOrder(v.env, b, t, PriceOf(v.denv, t.ptr)).book)
  {
    hide Matching.MatchOrder, Matching.CheckDeferred, Insert, BookOk, AllWaitFor;
    var buy := IsBuy(v.denv, t.ptr);
    var m := MatchOrder(v.env, t, PriceOf(v.denv, t.ptr), b.Side(!buy), b.stops);
    if m.inbound.openQty == 0 || m.inbound.ioc {
      FirstMatchWaits(v, b, t, m);
    } else {
      RecheckedWaits(v, b, t, m);
    }
    WaitsBySides(AddOrder(v.env, b, t, PriceOf(v.denv, t.ptr)).book, buy);
  }

  // ---- The cascade ----

  lemma {:induction false} SubmitAllKeepsWaiting(v: View, b: Book, waiting: seq<Tracker>)
    requires QueueOk(v, b, waiting) && AonsWait(b)
    ensures AonsWait(SubmitAll(v.env, b, waiting).book)
    decreases |waiting|
  {
    hide AddOrder, AonsWait;
    if waiting != [] {
      HeadIsSubmittable(v, b, waiting);
      AddOrderKeepsWaiting(v, b, waiting[0]);
      SubmitOneKeeps(v, b, waiting);
      SubmitAllKeepsWaiting(v, AddOrder(v.env, b, waiting[0], PriceOf(v.env, waiting[0].ptr)).book, waiting[1..]);
    }
  }

  lemma {:induction false} SubmitPendingKeepsWaiting(v: View, b: Book)
    requires QueueOk(v, b, []) && AonsWait(b)
    ensures AonsWait(SubmitPending(v.env, b).book)
    decreases b.stops.Load()
  {
    hide SubmitAll, AllWaitFor;
    if b.stops.pending != [] {
      EmptiedIsQueue(v, b);
      SubmitAllKeepsWaiting(v, Emptied(b), b.stops.pending);
      SubmittedIsQueue(v, b);
      SubmitPendingKeepsWaiting(v, SubmitAll(v.env, Emptied(b), b.stops.pending).book);
    }
  }

  lemma SubmissionWaits(v: View, b: Book, t: Tracker)
    requires Coming(v, b, t) && AonsWait(b)
    ensures AonsWait(SubmitPending(v.env, AddOrder(v.env, b, t, PriceOf(v.denv, t.ptr)).book).book)
  {
    hide AonsWait, Matching.AddOrder, Matching.SubmitPending;
    AddOrderKeepsWaiting(v, b, t);
    AddedIsQueue(v, b, t);
    SubmitPendingKeepsWaiting(v, AddOrder(v.env, b, t, PriceOf(v.denv, t.ptr)).book);
  }

  /** The orders opposite that cross a new regular order and are still there could not be filled by
      the side it rests on, when that side has regular orders only. */
  lemma AddedLeavesWaiting(v: View, b: Book, t: Tracker, k: nat)
    requires Submittable(v, b, t) && AonsWait(b)
    requires var a, buy := AddOrder(v.env, b, t, PriceOf(v.denv, t.ptr)), IsBuy(v.denv, t.ptr);
             && AllRegular(a.book.Side(buy)) && k < |a.book.Side(!buy)| && a.book.Side(!buy)[k].tracker.aon
    ensures var a, buy := AddOrder(v.env, b, t, PriceOf(v.denv, t.ptr)), IsBuy(v.denv, t.ptr);
            var e := a.book.Side(!buy)[k];
            CrossingQty(a.book.Side(buy), e.key.price) < e.tracker.openQty
  {
    hide Matching.AddOrder, RegularQty, CrossingQty, Submittable;
    AddOrderKeepsWaiting(v, b, t);
    var a, buy := AddOrder(v.env, b, t, PriceOf(v.denv, t.ptr)), IsBuy(v.denv, t.ptr);
    var e := a.book.Side(!buy)[k];
    RegularIsCrossing(a.book.Side(buy), e.key.price);
    assert !CouldFill(e, a.book.Side(buy));
  }
}
