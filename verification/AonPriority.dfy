/** Who gives to an all-or-none order: facing regular orders with enough, it trades in book order, just
    as a regular order of its size does. */
module AonPriority {
  import opened Prices
  import opened Orders
  import opened Books
  import opened Matching
  import opened Faces
  import opened AllOrNone
  import opened Priority

  lemma {:induction false} GreedyAppend(a: seq<Entry>, b: seq<Entry>, price: nat, avail: nat)
    ensures var x := Greedy(a, price, avail);
            Total(x) <= avail && Greedy(a + b, price, avail) == x + Greedy(b, price, avail - Total(x))
  {
    if a == [] {
      assert a + b == b;
      assert [] + Greedy(b, price, avail) == Greedy(b, price, avail);
    } else {
      var q := if a[0].key.Matches(price) then Share(a[0].tracker, avail) else 0;
      assert (a + b)[0] == a[0] && (a + b)[1..] == a[1..] + b;
      GreedyAppend(a[1..], b, price, avail - q);
      var y := Greedy(a[1..], price, avail - q);
      assert ([q] + y)[1..] == y;
      JoinThree([q], y, Greedy(b, price, avail - q - Total(y)));
    }
  }

  lemma JoinThree<T>(a: seq<T>, b: seq<T>, c: seq<T>)
    ensures a + (b + c) == a + b + c
  {
  }

  lemma {:induction false} RemainingAppend(a: seq<Entry>, x: seq<nat>, b: seq<Entry>, y: seq<nat>)
    requires |a| == |x| && |b| == |y|
    ensures Remaining(a + b, x + y) == Remaining(a, x) + Remaining(b, y)
    ensures Given(a + b, x + y) == Given(a, x) + Given(b, y)
    ensures Total(x + y) == Total(x) + Total(y)
  {
    if a == [] {
      assert a + b == b && x + y == y;
      assert [] + Remaining(b, y) == Remaining(b, y) && [] + Given(b, y) == Given(b, y);
    } else {
      assert (a + b)[0] == a[0] && (a + b)[1..] == a[1..] + b;
      assert (x + y)[0] == x[0] && (x + y)[1..] == x[1..] + y;
      RemainingAppend(a[1..], x[1..], b, y);
      JoinThree(Past([], a[0], a[0].tracker.Reduce(x[0])), Remaining(a[1..], x[1..]), Remaining(b, y));
      JoinThree(if x[0] > 0 then [(a[0].tracker.ptr, x[0])] else [], Given(a[1..], x[1..]), Given(b, y));
    }
  }

  /** Crossing regular orders that have no more than is wanted give everything. */
  lemma {:induction false} GreedyTakesAll(side: seq<Entry>, price: nat, avail: nat)
    requires AllOpen(side) && AllRegular(side) && AllCross(side, price) && CrossingQty(side, price) <= avail
    ensures var x := Greedy(side, price, avail); Remaining(side, x) == [] && Total(x) == CrossingQty(side, price)
  {
    if side != [] {
      var q := side[0].tracker.openQty;
      GreedyTakesAll(side[1..], price, avail - q);
      GreedyStep(side, price, avail);
    }
  }

  /** The second pass over regular orders that have no more than is wanted takes all of them. */
  lemma {:induction false} ExecTakesAll(env: OrderMap, inbound: Tracker, price: nat, side: seq<Entry>, left: nat,
                                        sb: StopBook)
    requires Clean(side) && AllRegular(side) && AllCross(side, price)
    requires CrossingQty(side, price) <= left <= inbound.openQty && Payable(env, inbound, side, price, sb)
    ensures var d := ExecPlan(env, inbound, Ids(side), side, left, sb);
            && d.side == [] && d.traded == CrossingQty(side, price)
            && Traded(d.fills) == Given(side, Greedy(side, price, left))
    decreases |side|
  {
    hide CreateTrade, Traded, Payable, Priced, PaysFor, ExecPlan, Given, Greedy, Remaining, Settle, Clean, IndexOf;
    if side == [] {
      NothingTraded(env, inbound, price, left, sb);
    } else {
      var e, tail := side[0], side[1..];
      assert Ids(side)[1..] == Ids(tail);
      assert [e] + tail == side;
      assert 0 < e.tracker.openQty <= left by { FirstIsOpen(side, price); }
      PayableParts(env, inbound, [e], tail, price, sb);
      PayableFor(env, inbound, side, price, sb, 0);
      var t := CreateTrade(env, inbound, e.tracker, e.tracker.openQty, sb);
      WholeTrade(env, inbound, e.tracker, sb);
      PayableOn(env, inbound, tail, price, sb, t.inbound, t.stops);
      CleanTail(side);
      ExecTakesAll(env, t.inbound, price, tail, left - e.tracker.openQty, t.stops);
      ExecFirst(env, inbound, side, left, sb, t);
      GreedyStep(side, price, left);
      var d := ExecPlan(env, t.inbound, Ids(tail), tail, left - e.tracker.openQty, t.stops);
      TradedAppend(t.fills, d.fills);
    }
  }

  lemma NothingTraded(env: OrderMap, inbound: Tracker, price: nat, left: nat, sb: StopBook)
    ensures Traded([]) == [] == Given([], Greedy([], price, left)) && Ids([]) == [] && CrossingQty([], price) == 0
    ensures ExecPlan(env, inbound, [], [], left, sb) == Deferred(inbound, [], sb, 0, [])
  {
  }

  lemma FirstIsOpen(side: seq<Entry>, price: nat)
    requires Clean(side) && side != [] && AllCross(side, price)
    ensures 0 < side[0].tracker.openQty
    ensures CrossingQty(side, price) == side[0].tracker.openQty + CrossingQty(side[1..], price)
  {
  }

  lemma CleanTail(side: seq<Entry>)
    requires Clean(side) && side != []
    ensures Clean(side[1..])
  {
  }

  /** A trade for all that a regular order has open. */
  lemma WholeTrade(env: OrderMap, inbound: Tracker, current: Tracker, sb: StopBook)
    requires PaysFor(env, inbound, current, sb) && 0 < current.openQty <= inbound.openQty
    ensures var t := CreateTrade(env, inbound, current, current.openQty, sb);
            && t.qty == current.openQty && t.current.openQty == 0 && t.inbound.openQty == inbound.openQty - t.qty
            && Traded(t.fills) == [(current.ptr, t.qty)]
            && (Priced(env, inbound, sb) ==> Priced(env, t.inbound, t.stops))
  {
    var t := CreateTrade(env, inbound, current, current.openQty, sb);
    TradeIsPriced(env, inbound, current, current.openQty, sb);
    assert t.fills[1..] == [];
  }

  lemma ExecFirst(env: OrderMap, inbound: Tracker, side: seq<Entry>, left: nat, sb: StopBook, t: Trade)
    requires side != [] && 0 < side[0].tracker.openQty <= left && t.qty == side[0].tracker.openQty
    requires t == CreateTrade(env, inbound, side[0].tracker, side[0].tracker.openQty, sb) && t.current.openQty == 0
    ensures var e := side[0];
            var d := ExecPlan(env, t.inbound, Ids(side)[1..], side[1..], left - e.tracker.openQty, t.stops);
            ExecPlan(env, inbound, Ids(side), side, left, sb)
            == d.(traded := t.qty + d.traded, fills := t.fills + d.fills)
  {
    hide CreateTrade, ExecPlan, PlanQty, PaidQty;
    assert Erase(side, 0) == side[1..];
    FirstFound(side);
    NextPlanned(env, inbound, Ids(side), side, left, sb);
  }

  lemma FirstFound(side: seq<Entry>)
    requires side != []
    ensures Ids(side) != [] && Ids(side)[0] == side[0].tracker.ptr && IndexOf(side, side[0].tracker.ptr) == 0
  {
  }

  /** The order with which there is enough: those before it give everything, it gives the rest. */
  lemma EnoughTrades(env: OrderMap, inbound: Tracker, price: nat, done: seq<Entry>, e: Entry, tail: seq<Entry>,
                     sb: StopBook)
    requires Clean(done + [e] + tail) && AllRegular(done) && !e.tracker.aon && AllCross(done, price)
    requires e.key.Matches(price) && Payable(env, inbound, done + [e] + tail, price, sb)
    requires CrossingQty(done, price) < inbound.openQty <= CrossingQty(done, price) + e.tracker.openQty
    ensures GreedyOutcome(MatchAon(env, inbound, inbound.openQty, price, done, [e] + tail, Ids(done),
                                   CrossingQty(done, price), sb),
                          [], done + [e] + tail, price, inbound.openQty)
  {
    hide MatchAon, ExecPlan, Runs, PlanQty, CreateTrade, Payable, Greedy, Remaining, Given, Traded, Completes, Held,
         TryDeferred;
    var qty, cur, heldQty := inbound.openQty, e.tracker.openQty, CrossingQty(done, price);
    PartsOfSide(env, inbound, price, done, e, tail, sb);
    var max, min := MaxFrom(e.tracker, qty), MinFrom(e.tracker, qty);
    PlanOfRegular(done, price, 0, qty);
    assert Ids(done)[0..] == Ids(done) && done[0..] == done;
    IdsAreHeld(done, price);
    PayableIsPaid(env, inbound, price, Ids(done), done, qty, sb);
    AonIsOffered(env, inbound, price, done, e, sb);
    AonQuantities(env, inbound, price, done, e.tracker, Ids(done), sb);
    ExecTakesAll(env, inbound, price, done, qty, sb);
    var d := TryDeferred(env, inbound, Ids(done), max, min, done, sb);
    TryExecutes(env, inbound, done, max, min, sb);
    var t := CreateTrade(env, d.inbound, e.tracker, d.inbound.openQty, d.stops);
    AonCompletesResult(env, inbound, price, done, e, tail, Ids(done), heldQty, d, t, sb);
    RestTrade(env, d.inbound, e.tracker, d.stops);
    GreedyTakesAll(done, price, qty);
    LastGives(done, e, tail, price, qty, d.fills, t);
  }

  lemma PartsOfSide(env: OrderMap, inbound: Tracker, price: nat, done: seq<Entry>, e: Entry, tail: seq<Entry>,
                    sb: StopBook)
    requires Clean(done + [e] + tail) && Payable(env, inbound, done + [e] + tail, price, sb) && e.key.Matches(price)
    ensures Clean(done) && AllOpen(tail) && e.tracker.openQty > 0
    ensures Payable(env, inbound, done, price, sb) && PaysFor(env, inbound, e.tracker, sb)
  {
    var side := done + [e] + tail;
    assert forall k :: 0 <= k < |done| ==> done[k] == side[k];
    assert side[|done|] == e;
    assert forall k :: 0 <= k < |tail| ==> tail[k] == side[|done| + 1 + k];
    PayableParts(env, inbound, done + [e], tail, price, sb);
    PayableParts(env, inbound, done, [e], price, sb);
    PayableFor(env, inbound, [e], price, sb, 0);
  }

  lemma AonIsOffered(env: OrderMap, inbound: Tracker, price: nat, done: seq<Entry>, e: Entry, sb: StopBook)
    requires !e.tracker.aon && PaysFor(env, inbound, e.tracker, sb)
    requires PlanQty(Ids(done), done, inbound.openQty) == Min(inbound.openQty, CrossingQty(done, price))
    requires PaidQty(env, inbound, Ids(done), done, inbound.openQty, sb) == PlanQty(Ids(done), done, inbound.openQty)
    requires CrossingQty(done, price) < inbound.openQty <= CrossingQty(done, price) + e.tracker.openQty
    ensures Completes(env, inbound, e.tracker, Offered(env, inbound, e.tracker, Ids(done), done, sb), sb)
    ensures PlanQty(Ids(done), done, MaxFrom(e.tracker, inbound.openQty)) >= MinFrom(e.tracker, inbound.openQty)
  {
    hide PlanQty, PaidQty, PaysFor, CrossingQty;
  }

  lemma TryExecutes(env: OrderMap, inbound: Tracker, done: seq<Entry>, max: nat, min: nat, sb: StopBook)
    requires PlanQty(Ids(done), done, max) >= min
    ensures TryDeferred(env, inbound, Ids(done), max, min, done, sb) == ExecPlan(env, inbound, Ids(done), done, max, sb)
  {
  }

  lemma RestTrade(env: OrderMap, inbound: Tracker, current: Tracker, sb: StopBook)
    ensures var t := CreateTrade(env, inbound, current, inbound.openQty, sb);
            && t.current == current.Reduce(t.qty)
            && Traded(t.fills) == if t.qty > 0 then [(current.ptr, t.qty)] else []
  {
    var t := CreateTrade(env, inbound, current, inbound.openQty, sb);
    if t.qty > 0 {
      assert t.fills[1..] == [];
    }
  }

  lemma LastGives(done: seq<Entry>, e: Entry, tail: seq<Entry>, price: nat, qty: nat, fills: seq<Callback>, t: Trade)
    requires AllOpen(tail) && !e.tracker.aon && e.key.Matches(price)
    requires var x := Greedy(done, price, qty);
             && Remaining(done, x) == [] && Total(x) < qty && Traded(fills) == Given(done, x)
             && t.qty == qty - Total(x) <= e.tracker.openQty
    requires t.current == e.tracker.Reduce(t.qty) && t.inbound.openQty == 0
    requires Traded(t.fills) == [(e.tracker.ptr, t.qty)]
    ensures GreedyOutcome(Match(t.inbound, Past([], e, t.current) + tail, t.stops, [], fills + t.fills, true), [],
                          done + [e] + tail, price, qty)
  {
    hide Greedy, Remaining, Given, Traded, Total;
    var x := Greedy(done, price, qty);
    var y := Greedy([e] + tail, price, t.qty);
    assert done + ([e] + tail) == done + [e] + tail;
    GreedyAppend(done, [e] + tail, price, qty);
    RemainingAppend(done, x, [e] + tail, y);
    assert ([e] + tail)[0] == e && ([e] + tail)[1..] == tail;
    GreedyStep([e] + tail, price, t.qty);
    GreedyStopsWhenFull(tail, price, 0);
    TradedAppend(fills, t.fills);
    NoneAfter(e, t.qty);
  }

  lemma NoneAfter(e: Entry, qty: nat)
    ensures [(e.tracker.ptr, qty)] + [] == [(e.tracker.ptr, qty)]
    ensures forall s: seq<Entry> :: [] + s == s
  {
  }

  lemma {:induction false} AonTradesGreedily(env: OrderMap, inbound: Tracker, price: nat, done: seq<Entry>,
                                             rest: seq<Entry>, buySide: bool, sb: StopBook)
    requires Clean(done + rest) && Sorted(rest) && OneSided(rest, buySide)
    requires Payable(env, inbound, done + rest, price, sb)
    requires AllRegular(done) && AllRegular(rest) && AllCross(done, price)
    requires CrossingQty(done, price) < inbound.openQty <= CrossingQty(done + rest, price)
    ensures GreedyOutcome(MatchAon(env, inbound, inbound.openQty, price, done, rest, Ids(done),
                                   CrossingQty(done, price), sb),
                          [], done + rest, price, inbound.openQty)
    decreases |rest|
  {
    hide MatchAon, Payable, GreedyOutcome, Clean;
    CrossingAppend(done, rest, price);
    if rest == [] || !rest[0].key.Matches(price) {
      if rest != [] {
        NoneCrossesAfter(rest, buySide, price, 0);
      }
      NoCrossingQty(rest, price);
      return;
    }
    var e, tail := rest[0], rest[1..];
    assert [e] + tail == rest;
    assert done + [e] + tail == done + rest;
    CrossingOfPrefix(done, e, tail, price);
    if e.tracker.openQty + CrossingQty(done, price) < inbound.openQty {
      AonWaits(env, inbound, price, done, e, tail, sb);
      AonTradesGreedily(env, inbound, price, done + [e], tail, buySide, sb);
    } else {
      EnoughTrades(env, inbound, price, done, e, tail, sb);
    }
  }

  /** Facing regular orders that have enough, with a price for every trade, an all-or-none order
      trades exactly as the same order does that is not: the same fills with the same orders, and the
      same orders left. */
  lemma AonTradesAsRegular(env: OrderMap, inbound: Tracker, price: nat, side: seq<Entry>, buySide: bool, sb: StopBook)
    requires inbound.aon && 0 < inbound.openQty <= CrossingQty(side, price) && Payable(env, inbound, side, price, sb)
    requires Clean(side) && Sorted(side) && OneSided(side, buySide) && AllRegular(side)
    ensures var m := MatchOrder(env, inbound, price, side, sb);
            var m' := MatchOrder(env, inbound.(aon := false), price, side, sb);
            m.inbound.openQty == m'.inbound.openQty == 0 && m.side == m'.side && Traded(m.fills) == Traded(m'.fills)
  {
    hide MatchAon, MatchRegular, Payable, Greedy, Remaining, Given, Traded;
    assert [] + side == side && Ids([]) == [] && CrossingQty([], price) == 0;
    AonTradesGreedily(env, inbound, price, [], side, buySide, sb);
    StillPayable(env, inbound, price, side, sb);
    MatchRegularIsGreedy(env, inbound.(aon := false), price, [], side, buySide, sb);
    AonMatchFilledExactlyWhen(env, inbound, price, side, buySide, sb);
  }

  lemma StillPayable(env: OrderMap, inbound: Tracker, price: nat, side: seq<Entry>, sb: StopBook)
    requires Payable(env, inbound, side, price, sb)
    ensures Payable(env, inbound.(aon := false), side, price, sb)
  {
  }
}
