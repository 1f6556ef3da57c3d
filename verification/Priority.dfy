/** Price-time priority: what a regular inbound order gets, stated as a greedy walk over
    the whole side, and when an all-or-none inbound order is filled. */
module Priority {
  import opened Prices
  import opened Orders
  import opened Books
  import opened Matching
  import opened Faces
  import opened AllOrNone

  /** What each resting order gives when `avail` is wanted: in book order, every crossing
      order as much as it can, an all-or-none order only if it can give everything. */
  function Greedy(side: seq<Entry>, price: nat, avail: nat): (alloc: seq<nat>)
    ensures |alloc| == |side|
  {
    if side == [] then []
    else
      var q := if side[0].key.Matches(price) then Share(side[0].tracker, avail) else 0;
      [q] + Greedy(side[1..], price, avail - q)
  }

  function Total(alloc: seq<nat>): nat {
    if alloc == [] then 0 else alloc[0] + Total(alloc[1..])
  }

  /** The side after each order has given its allocation. */
  function Remaining(side: seq<Entry>, alloc: seq<nat>): seq<Entry>
    requires |alloc| == |side|
  {
    if side == [] then []
    else Past([], side[0], side[0].tracker.Reduce(alloc[0])) + Remaining(side[1..], alloc[1..])
  }

  /** Who trades how much, in order. */
  function Given(side: seq<Entry>, alloc: seq<nat>): seq<(OrderId, nat)>
    requires |alloc| == |side|
  {
    if side == [] then []
    else (if alloc[0] > 0 then [(side[0].tracker.ptr, alloc[0])] else []) + Given(side[1..], alloc[1..])
  }

  function Traded(fills: seq<Callback>): seq<(OrderId, nat)> {
    if fills == [] then []
    else (if fills[0].FillCb? then [(fills[0].matched, fills[0].quantity)] else []) + Traded(fills[1..])
  }

  lemma {:induction false} GreedyStopsWhenFull(side: seq<Entry>, price: nat, avail: nat)
    requires AllOpen(side)
    requires avail == 0 || (forall k :: 0 <= k < |side| ==> !side[k].key.Matches(price))
    ensures var alloc := Greedy(side, price, avail);
            Remaining(side, alloc) == side && Given(side, alloc) == [] && Total(alloc) == 0
  {
    if side != [] {
      GreedyStopsWhenFull(side[1..], price, avail);
      assert side[0].tracker.Reduce(0) == side[0].tracker;
      assert [] + [side[0].(tracker := side[0].tracker)] + side[1..] == side;
    }
  }

  /** The first order that does not cross is followed by none that does. */
  lemma NoneCrossesAfter(side: seq<Entry>, buySide: bool, price: nat, k: nat)
    requires Sorted(side) && OneSided(side, buySide) && k < |side| && !side[k].key.Matches(price)
    ensures forall j :: k <= j < |side| ==> !side[j].key.Matches(price)
  {
    forall j | k <= j < |side|
      ensures !side[j].key.Matches(price)
    {
      if side[j].key.Matches(price) {
        MatchesIsDownwardClosed(side[k].key, side[j].key, price);
      }
    }
  }

  /** The greedy walk, one order at a time. */
  lemma GreedyStep(side: seq<Entry>, price: nat, avail: nat)
    requires side != []
    ensures var q := if side[0].key.Matches(price) then Share(side[0].tracker, avail) else 0;
            var alloc, tail := Greedy(side, price, avail), Greedy(side[1..], price, avail - q);
            && Remaining(side, alloc) == Past([], side[0], side[0].tracker.Reduce(q)) + Remaining(side[1..], tail)
            && Given(side, alloc) == (if q > 0 then [(side[0].tracker.ptr, q)] else []) + Given(side[1..], tail)
            && Total(alloc) == q + Total(tail)
  {
    var q := if side[0].key.Matches(price) then Share(side[0].tracker, avail) else 0;
    var tail := Greedy(side[1..], price, avail - q);
    assert ([q] + tail)[1..] == tail;
  }

  ghost predicate GreedyOutcome(m: Match, done: seq<Entry>, rest: seq<Entry>, price: nat, avail: nat) {
    var alloc := Greedy(rest, price, avail);
    && m.side == done + Remaining(rest, alloc)
    && Traded(m.fills) == Given(rest, alloc)
    && m.inbound.openQty + Total(alloc) == avail
  }

  lemma OutcomeAfterTrade(t: Trade, m: Match, done: seq<Entry>, e: Entry, tail: seq<Entry>, price: nat, avail: nat)
    requires e.key.Matches(price) && t.qty == Share(e.tracker, avail) > 0
    requires t.current == e.tracker.Reduce(t.qty)
    requires Traded(t.fills) == [(e.tracker.ptr, t.qty)]
    requires GreedyOutcome(m, Past(done, e, t.current), tail, price, avail - t.qty)
    ensures GreedyOutcome(m.After(t.fills, true), done, [e] + tail, price, avail)
  {
    hide Greedy, Remaining, Traded;
    assert ([e] + tail)[1..] == tail;
    GreedyStep([e] + tail, price, avail);
    TradedAppend(t.fills, m.fills);
    PastThen(done, e, t.current, Remaining(tail, Greedy(tail, price, avail - t.qty)));
  }

  lemma PastThen(done: seq<Entry>, e: Entry, t: Tracker, rem: seq<Entry>)
    ensures Past(done, e, t) + rem == done + (Past([], e, t) + rem)
  {
    assert Past(done, e, t) == done + Past([], e, t);
  }

  lemma OutcomeAfterPassing(m: Match, done: seq<Entry>, e: Entry, tail: seq<Entry>, price: nat, avail: nat)
    requires e.key.Matches(price) && e.tracker.aon && avail < e.tracker.openQty
    requires GreedyOutcome(m, done + [e], tail, price, avail)
    ensures GreedyOutcome(m.Passing(e.tracker.ptr), done, [e] + tail, price, avail)
  {
    GivesNothing(e, tail, avail);
    hide Greedy, Given, Remaining, Total, Traded, Past, Share;
    GreedyStep([e] + tail, price, avail);
    Nested(done, e, Remaining(tail, Greedy(tail, price, avail)));
  }

  lemma GivesNothing(e: Entry, tail: seq<Entry>, avail: nat)
    requires e.tracker.aon && avail < e.tracker.openQty
    ensures ([e] + tail)[0] == e && ([e] + tail)[1..] == tail
    ensures Share(e.tracker, avail) == 0 && Past([], e, e.tracker.Reduce(0)) == [e]
  {
    assert e.tracker.Reduce(0) == e.tracker;
    assert e.(tracker := e.tracker) == e;
  }

  lemma Nested(done: seq<Entry>, e: Entry, rem: seq<Entry>)
    ensures done + [e] + rem == done + ([e] + rem)
    ensures forall given: seq<(OrderId, nat)> :: [] + given == given
  {
  }

  lemma OutcomeWhenStopped(inbound: Tracker, done: seq<Entry>, rest: seq<Entry>, buySide: bool, price: nat,
                           sb: StopBook)
    requires AllOpen(rest) && Sorted(rest) && OneSided(rest, buySide)
    requires rest == [] || inbound.openQty == 0 || !rest[0].key.Matches(price)
    ensures GreedyOutcome(Match(inbound, done + rest, sb, [], [], false), done, rest, price, inbound.openQty)
  {
    if rest != [] {
      if !rest[0].key.Matches(price) {
        NoneCrossesAfter(rest, buySide, price, 0);
      }
      GreedyStopsWhenFull(rest, price, inbound.openQty);
    }
  }

  lemma TailIsOrdered(rest: seq<Entry>, buySide: bool)
    requires rest != [] && AllOpen(rest) && Sorted(rest) && OneSided(rest, buySide)
    ensures AllOpen(rest[1..]) && Sorted(rest[1..]) && OneSided(rest[1..], buySide)
  {
  }

  lemma RegularTrade(env: OrderMap, inbound: Tracker, current: Tracker, sb: StopBook)
    requires PaysFor(env, inbound, current, sb) && inbound.openQty > 0 && current.openQty > 0
    requires current.aon ==> current.openQty <= inbound.openQty
    ensures var t := CreateTrade(env, inbound, current, inbound.openQty, sb);
            && t.qty == Share(current, inbound.openQty) > 0
            && t.current == current.Reduce(t.qty)
            && t.inbound.openQty == inbound.openQty - t.qty
            && Traded(t.fills) == [(current.ptr, t.qty)]
            && (Priced(env, inbound, sb) ==> Priced(env, t.inbound, t.stops))
  {
    var t := CreateTrade(env, inbound, current, inbound.openQty, sb);
    TradeIsPriced(env, inbound, current, inbound.openQty, sb);
    assert t.fills[1..] == [];
  }

  /** The matching loop is the greedy walk: same trades, same orders left. */
  lemma {:induction false} MatchRegularIsGreedy(env: OrderMap, inbound: Tracker, price: nat, done: seq<Entry>,
                                                rest: seq<Entry>, buySide: bool, sb: StopBook)
    requires AllOpen(rest) && Sorted(rest) && OneSided(rest, buySide) && Payable(env, inbound, rest, price, sb)
    ensures GreedyOutcome(MatchRegular(env, inbound, price, done, rest, sb), done, rest, price, inbound.openQty)
    decreases |rest|
  {
    hide CreateTrade, GreedyOutcome, Priced, Payable, PaysFor;
    if rest == [] || inbound.openQty == 0 || !rest[0].key.Matches(price) {
      OutcomeWhenStopped(inbound, done, rest, buySide, price, sb);
      return;
    }
    var e, tail := rest[0], rest[1..];
    assert [e] + tail == rest;
    TailIsOrdered(rest, buySide);
    PayableParts(env, inbound, [e], tail, price, sb);
    PayableFor(env, inbound, [e], price, sb, 0);
    if e.tracker.aon && inbound.openQty < e.tracker.openQty {
      MatchRegularIsGreedy(env, inbound, price, done + [e], tail, buySide, sb);
      OutcomeAfterPassing(MatchRegular(env, inbound, price, done + [e], tail, sb), done, e, tail, price,
                          inbound.openQty);
    } else {
      var t := CreateTrade(env, inbound, e.tracker, inbound.openQty, sb);
      RegularTrade(env, inbound, e.tracker, sb);
      PayableOn(env, inbound, tail, price, sb, t.inbound, t.stops);
      MatchRegularIsGreedy(env, t.inbound, price, Past(done, e, t.current), tail, buySide, t.stops);
      OutcomeAfterTrade(t, MatchRegular(env, t.inbound, price, Past(done, e, t.current), tail, t.stops), done, e, tail,
                        price, inbound.openQty);
    }
  }

  lemma TradedNext(fills: seq<Callback>)
    requires fills != []
    ensures Traded(fills)
            == (if fills[0].FillCb? then [(fills[0].matched, fills[0].quantity)] else []) + Traded(fills[1..])
  {
  }

  lemma {:induction false} TradedAppend(a: seq<Callback>, b: seq<Callback>)
    ensures Traded(a + b) == Traded(a) + Traded(b)
  {
    if a == [] {
      assert a + b == b;
      assert [] + Traded(b) == Traded(b);
    } else {
      hide Traded;
      var all := a + b;
      assert all[0] == a[0] && all[1..] == a[1..] + b;
      TradedNext(a);
      TradedNext(all);
      TradedAppend(a[1..], b);
      var first := if a[0].FillCb? then [(a[0].matched, a[0].quantity)] else [];
      assert first + Traded(a[1..]) + Traded(b) == first + (Traded(a[1..]) + Traded(b));
    }
  }

  /** Nobody trades before every regular order ahead of it is completely filled. */
  lemma {:induction false} GreedyHasPriority(side: seq<Entry>, buySide: bool, price: nat, avail: nat, i: nat, j: nat)
    requires Sorted(side) && OneSided(side, buySide) && i < j < |side| && !side[i].tracker.aon
    ensures var alloc := Greedy(side, price, avail);
            alloc[j] > 0 ==> side[i].key.Matches(price) && alloc[i] == side[i].tracker.openQty
  {
    var q := if side[0].key.Matches(price) then Share(side[0].tracker, avail) else 0;
    if i > 0 {
      GreedyHasPriority(side[1..], buySide, price, avail - q, i - 1, j - 1);
    } else {
      GreedyNeedsCrossing(side[1..], price, avail - q, j - 1);
      if side[j].key.Matches(price) {
        MatchesIsDownwardClosed(side[0].key, side[j].key, price);
      }
    }
  }

  /** An all-or-none order gives everything or nothing; and when some of the wanted
      quantity is left over, no crossing order could still have used it. */
  lemma {:induction false} GreedyIsMaximal(side: seq<Entry>, price: nat, avail: nat, i: nat)
    requires i < |side|
    ensures var alloc := Greedy(side, price, avail);
            && (side[i].tracker.aon ==> alloc[i] == 0 || alloc[i] == side[i].tracker.openQty)
            && Total(alloc) <= avail
            && (Total(alloc) < avail && side[i].key.Matches(price) ==>
                 alloc[i] == side[i].tracker.openQty || (side[i].tracker.aon &&
                                                         avail - Total(alloc) < side[i].tracker.openQty))
  {
    var q := if side[0].key.Matches(price) then Share(side[0].tracker, avail) else 0;
    GreedyStep(side, price, avail);
    TotalAtMost(side[1..], price, avail - q);
    if i > 0 {
      GreedyIsMaximal(side[1..], price, avail - q, i - 1);
    }
  }

  lemma {:induction false} TotalAtMost(side: seq<Entry>, price: nat, avail: nat)
    ensures Total(Greedy(side, price, avail)) <= avail
  {
    if side != [] {
      var q := if side[0].key.Matches(price) then Share(side[0].tracker, avail) else 0;
      TotalAtMost(side[1..], price, avail - q);
    }
  }

  lemma {:induction false} GreedyNeedsCrossing(side: seq<Entry>, price: nat, avail: nat, j: nat)
    requires j < |side|
    ensures Greedy(side, price, avail)[j] > 0 ==> side[j].key.Matches(price) && avail > 0
  {
    if j > 0 {
      var q := if side[0].key.Matches(price) then Share(side[0].tracker, avail) else 0;
      GreedyNeedsCrossing(side[1..], price, avail - q, j - 1);
    }
  }

  // ---- All-or-none inbound against regular orders ----

  /** Open quantity of the orders an inbound price crosses. */
  function CrossingQty(side: seq<Entry>, price: nat): nat {
    if side == [] then 0
    else (if side[0].key.Matches(price) then side[0].tracker.openQty else 0) + CrossingQty(side[1..], price)
  }

  function Ids(side: seq<Entry>): seq<OrderId> {
    seq(|side|, k requires 0 <= k < |side| => side[k].tracker.ptr)
  }

  lemma {:induction false} CrossingAppend(a: seq<Entry>, b: seq<Entry>, price: nat)
    ensures CrossingQty(a + b, price) == CrossingQty(a, price) + CrossingQty(b, price)
  {
    if a == [] {
      assert a + b == b;
    } else {
      assert (a + b)[1..] == a[1..] + b;
      CrossingAppend(a[1..], b, price);
    }
  }

  lemma {:induction false} NoCrossingQty(side: seq<Entry>, price: nat)
    requires forall k :: 0 <= k < |side| ==> !side[k].key.Matches(price)
    ensures CrossingQty(side, price) == 0
  {
    if side != [] {
      NoCrossingQty(side[1..], price);
    }
  }

  /** Regular deferred orders can give any quantity up to their total. */
  lemma {:induction false} PlanOfRegular(side: seq<Entry>, price: nat, i: nat, left: nat)
    requires Distinct(side) && i <= |side|
    requires forall k :: 0 <= k < |side| ==> !side[k].tracker.aon && side[k].key.Matches(price)
    ensures PlanQty(Ids(side)[i..], side, left) == Min(left, CrossingQty(side[i..], price))
    decreases |side| - i
  {
    var ids := Ids(side)[i..];
    if i < |side| && left != 0 {
      IndexOfUnique(side, i);
      var q := Share(side[i].tracker, left);
      assert ids[1..] == Ids(side)[i + 1..];
      assert side[i..][1..] == side[i + 1..];
      PlanOfRegular(side, price, i + 1, left - q);
    }
  }

  lemma IdsAreHeld(side: seq<Entry>, price: nat)
    requires Distinct(side)
    requires forall k :: 0 <= k < |side| ==> side[k].key.Matches(price)
    ensures Held(Ids(side), side, price)
  {
    forall i | 0 <= i < |side|
      ensures Crossing(side, Ids(side)[i], price)
    {
      IndexOfUnique(side, i);
    }
  }

  ghost predicate AllRegular(side: seq<Entry>) {
    forall k :: 0 <= k < |side| ==> !side[k].tracker.aon
  }

  ghost predicate AllCross(side: seq<Entry>, price: nat) {
    forall k :: 0 <= k < |side| ==> side[k].key.Matches(price)
  }

  /** The order that brings the crossing quantity up to what is wanted completes the match. */
  lemma EnoughCompletes(env: OrderMap, inbound: Tracker, price: nat, done: seq<Entry>, e: Entry, tail: seq<Entry>,
                        sb: StopBook)
    requires Clean(done + [e] + tail) && AllRegular(done) && !e.tracker.aon && AllCross(done, price)
    requires e.key.Matches(price)
    requires Payable(env, inbound, done + [e] + tail, price, sb)
    requires CrossingQty(done, price) < inbound.openQty <= CrossingQty(done, price) + e.tracker.openQty
    ensures MatchAon(env, inbound, inbound.openQty, price, done, [e] + tail, Ids(done), CrossingQty(done, price),
                     sb).inbound.openQty == 0
  {
    assert Distinct(done) by {
      assert forall k :: 0 <= k < |done| ==> done[k] == (done + [e] + tail)[k];
    }
    PlanOfRegular(done, price, 0, inbound.openQty);
    assert Ids(done)[0..] == Ids(done) && done[0..] == done;
    IdsAreHeld(done, price);
    PayableParts(env, inbound, done + [e], tail, price, sb);
    PayableParts(env, inbound, done, [e], price, sb);
    PayableFor(env, inbound, [e], price, sb, 0);
    PayableIsPaid(env, inbound, price, Ids(done), done, inbound.openQty, sb);
    AonCompletes(env, inbound, price, done, e, tail, Ids(done), CrossingQty(done, price), sb);
  }

  lemma CrossingOfPrefix(done: seq<Entry>, e: Entry, tail: seq<Entry>, price: nat)
    requires e.key.Matches(price)
    ensures CrossingQty(done + [e], price) == CrossingQty(done, price) + e.tracker.openQty
    ensures CrossingQty(done + [e] + tail, price) >= CrossingQty(done, price) + e.tracker.openQty
    ensures Ids(done + [e]) == Ids(done) + [e.tracker.ptr]
  {
    CrossingAppend(done, [e], price);
    assert [e][1..] == [];
    CrossingAppend(done + [e], tail, price);
  }

  ghost predicate FilledIffEnough(inbound: Tracker, price: nat, side: seq<Entry>, sb: StopBook, m: Match) {
    if CrossingQty(side, price) >= inbound.openQty then m.inbound.openQty == 0
    else m == Match(inbound, side, sb, [], [], false)
  }

  /** Facing regular orders only, an all-or-none order is filled exactly when the orders
      it crosses have enough between them; otherwise nothing changes. */
  lemma {:induction false} AonFilledIffEnough(env: OrderMap, inbound: Tracker, price: nat, done: seq<Entry>,
                                              rest: seq<Entry>, buySide: bool, sb: StopBook)
    requires Clean(done + rest) && Sorted(rest) && OneSided(rest, buySide)
    requires Payable(env, inbound, done + rest, price, sb)
    requires AllRegular(done) && AllRegular(rest) && AllCross(done, price)
    requires inbound.openQty > CrossingQty(done, price)
    ensures FilledIffEnough(inbound, price, done + rest, sb,
                            MatchAon(env, inbound, inbound.openQty, price, done, rest, Ids(done),
                                     CrossingQty(done, price), sb))
    decreases |rest|
  {
    hide MatchAon, Payable;
    if rest == [] || !rest[0].key.Matches(price) {
      AonEnds(env, inbound, price, done, rest, buySide, sb);
      return;
    }
    var e, tail := rest[0], rest[1..];
    assert [e] + tail == rest;
    assert done + [e] + tail == done + rest;
    CrossingOfPrefix(done, e, tail, price);
    if e.tracker.openQty + CrossingQty(done, price) < inbound.openQty {
      AonWaits(env, inbound, price, done, e, tail, sb);
      AonFilledIffEnough(env, inbound, price, done + [e], tail, buySide, sb);
    } else {
      EnoughCompletes(env, inbound, price, done, e, tail, sb);
    }
  }

  /** No further order crosses: there was not enough. */
  lemma AonEnds(env: OrderMap, inbound: Tracker, price: nat, done: seq<Entry>, rest: seq<Entry>, buySide: bool,
                sb: StopBook)
    requires Sorted(rest) && OneSided(rest, buySide) && (rest == [] || !rest[0].key.Matches(price))
    requires inbound.openQty > CrossingQty(done, price)
    ensures FilledIffEnough(inbound, price, done + rest, sb,
                            MatchAon(env, inbound, inbound.openQty, price, done, rest, Ids(done),
                                     CrossingQty(done, price), sb))
  {
    CrossingAppend(done, rest, price);
    if rest != [] {
      NoneCrossesAfter(rest, buySide, price, 0);
      NoCrossingQty(rest, price);
    }
  }

  /** A regular order that is not enough is remembered. */
  lemma AonWaits(env: OrderMap, inbound: Tracker, price: nat, done: seq<Entry>, e: Entry, tail: seq<Entry>,
                 sb: StopBook)
    requires !e.tracker.aon && e.key.Matches(price) && e.tracker.openQty + CrossingQty(done, price) < inbound.openQty
    ensures MatchAon(env, inbound, inbound.openQty, price, done, [e] + tail, Ids(done), CrossingQty(done, price), sb)
         == MatchAon(env, inbound, inbound.openQty, price, done + [e], tail, Ids(done + [e]),
                     CrossingQty(done + [e], price), sb)
  {
    assert ([e] + tail)[1..] == tail;
    CrossingOfPrefix(done, e, tail, price);
  }

  /** The same for a whole match: filled if and only if there is enough. */
  lemma AonMatchFilledExactlyWhen(env: OrderMap, inbound: Tracker, price: nat, side: seq<Entry>, buySide: bool,
                                  sb: StopBook)
    requires inbound.aon && inbound.openQty > 0 && Payable(env, inbound, side, price, sb)
    requires Clean(side) && Sorted(side) && OneSided(side, buySide) && AllRegular(side)
    ensures var m := MatchOrder(env, inbound, price, side, sb);
            && (m.inbound.openQty == 0 <==> CrossingQty(side, price) >= inbound.openQty)
            && (m.inbound.openQty != 0 ==> m == Match(inbound, side, sb, [], [], false))
  {
    hide MatchAon;
    assert [] + side == side && Ids([]) == [] && CrossingQty([], price) == 0;
    AonFilledIffEnough(env, inbound, price, [], side, buySide, sb);
  }
}
