/** All-or-none orders meeting all-or-none orders: which combinations the match finds, and one that it
    does not find. */
module AonPairs {
  import opened Prices
  import opened Orders
  import opened Books
  import opened Matching
  import opened Faces
  import opened AllOrNone
  import opened Priority
  import opened WaitingAons

  /** An order of exactly its size is enough, of whichever kind, and whatever else is on the side. */
  lemma {:induction false} AonTakesEqual(env: OrderMap, inbound: Tracker, price: nat, done: seq<Entry>,
                                         rest: seq<Entry>, held: seq<OrderId>, heldQty: nat, k: nat, buySide: bool,
                                         sb: StopBook)
    requires Clean(done + rest) && Held(held, done, price) && Sorted(rest) && OneSided(rest, buySide)
    requires Payable(env, inbound, done + rest, price, sb)
    requires k < |rest| && rest[k].key.Matches(price) && rest[k].tracker.openQty == inbound.openQty
    ensures MatchAon(env, inbound, inbound.openQty, price, done, rest, held, heldQty, sb).inbound.openQty == 0
    decreases |rest|
  {
    hide Held, Payable, Clean, TryDeferred;
    if inbound.openQty == 0 {
      return;
    }
    var e, tail := rest[0], rest[1..];
    var qty, cur := inbound.openQty, e.tracker.openQty;
    FirstCrosses(rest, buySide, price, k);
    NextNode(done, e, tail, rest, buySide);
    HeldNext(done, e, tail, held, price);
    if k == 0 {
      EqualCompletes(env, inbound, price, done, e, tail, held, heldQty, sb);
    } else if e.tracker.aon && qty < cur {
      AonTakesEqual(env, inbound, price, done + [e], tail, held, heldQty, k - 1, buySide, sb);
    } else if cur + heldQty < qty {
      AonTakesEqual(env, inbound, price, done + [e], tail, held + [e.tracker.ptr], heldQty + cur, k - 1, buySide, sb);
    } else {
      AonTakesEqual(env, inbound, price, done + [e], tail, held, heldQty, k - 1, buySide, sb);
      AonTried(env, inbound, price, done, e, tail, held, heldQty, sb);
    }
  }

  lemma FirstCrosses(side: seq<Entry>, buySide: bool, price: nat, k: nat)
    requires Sorted(side) && OneSided(side, buySide) && k < |side| && side[k].key.Matches(price)
    ensures side[0].key.Matches(price)
  {
    if k > 0 {
      MatchesIsDownwardClosed(side[0].key, side[k].key, price);
    }
  }

  lemma EqualCompletes(env: OrderMap, inbound: Tracker, price: nat, done: seq<Entry>, e: Entry, tail: seq<Entry>,
                       held: seq<OrderId>, heldQty: nat, sb: StopBook)
    requires Clean(done + [e] + tail) && Held(held, done, price) && e.key.Matches(price)
    requires Payable(env, inbound, done + [e] + tail, price, sb) && e.tracker.openQty == inbound.openQty > 0
    ensures MatchAon(env, inbound, inbound.openQty, price, done, [e] + tail, held, heldQty, sb).inbound.openQty == 0
  {
    hide MatchAon, Runs, PaidQty, PlanQty;
    PayableParts(env, inbound, done + [e], tail, price, sb);
    PayableParts(env, inbound, done, [e], price, sb);
    PayableFor(env, inbound, [e], price, sb, 0);
    AonCompletes(env, inbound, price, done, e, tail, held, heldQty, sb);
  }

  /** A whole match, against any side. */
  lemma EqualIsEnough(env: OrderMap, inbound: Tracker, price: nat, side: seq<Entry>, buySide: bool, k: nat,
                      sb: StopBook)
    requires inbound.aon && Payable(env, inbound, side, price, sb)
    requires Clean(side) && Sorted(side) && OneSided(side, buySide)
    requires k < |side| && side[k].key.Matches(price) && side[k].tracker.openQty == inbound.openQty
    ensures MatchOrder(env, inbound, price, side, sb).inbound.openQty == 0
  {
    hide MatchAon, Payable, Clean;
    assert [] + side == side;
    AonTakesEqual(env, inbound, price, [], side, [], 0, k, buySide, sb);
  }

  // ---- One all-or-none order among regular ones ----

  /** All but the order at `k` are regular. */
  ghost predicate OnlyAonAt(side: seq<Entry>, k: nat) {
    k < |side| && forall j :: 0 <= j < |side| ==> side[j].tracker.aon == (j == k)
  }

  /** Together with an all-or-none order that is not too large, the regular orders have enough. */
  lemma {:induction false} AonTakesOne(env: OrderMap, inbound: Tracker, price: nat, done: seq<Entry>,
                                       rest: seq<Entry>, k: nat, buySide: bool, sb: StopBook)
    requires Clean(done + rest) && Sorted(rest) && OneSided(rest, buySide)
    requires Payable(env, inbound, done + rest, price, sb)
    requires AllRegular(done) && AllCross(done, price) && CrossingQty(done, price) < inbound.openQty
    requires OnlyAonAt(rest, k) && rest[k].key.Matches(price) && rest[k].tracker.openQty <= inbound.openQty
    requires inbound.openQty <= rest[k].tracker.openQty + CrossingQty(done, price) + RegularQty(rest, price)
    ensures MatchAon(env, inbound, inbound.openQty, price, done, rest, Ids(done), CrossingQty(done, price),
                     sb).inbound.openQty == 0
    decreases |rest|
  {
    hide Payable, Clean, MatchAon;
    var e, tail := rest[0], rest[1..];
    FirstCrosses(rest, buySide, price, k);
    NextNode(done, e, tail, rest, buySide);
    if k == 0 {
      AtTheAon(env, inbound, price, done, e, tail, buySide, sb);
    } else {
      CrossingOfPrefix(done, e, tail, price);
      if e.tracker.openQty + CrossingQty(done, price) < inbound.openQty {
        AonWaits(env, inbound, price, done, e, tail, sb);
        assert OnlyAonAt(tail, k - 1);
        AonTakesOne(env, inbound, price, done + [e], tail, k - 1, buySide, sb);
      } else {
        EnoughCompletes(env, inbound, price, done, e, tail, sb);
      }
    }
  }

  lemma HeldAll(done: seq<Entry>, price: nat, qty: nat)
    requires Distinct(done) && AllRegular(done) && AllCross(done, price)
    ensures Held(Ids(done), done, price)
    ensures PlanQty(Ids(done), done, qty) == Min(qty, CrossingQty(done, price))
  {
    IdsAreHeld(done, price);
    PlanOfRegular(done, price, 0, qty);
    assert Ids(done)[0..] == Ids(done) && done[0..] == done;
  }

  /** When the match comes to it, the regular orders before it have enough, or it is held. */
  lemma AtTheAon(env: OrderMap, inbound: Tracker, price: nat, done: seq<Entry>, e: Entry, tail: seq<Entry>,
                 buySide: bool, sb: StopBook)
    requires Clean(done + [e] + tail) && Sorted(tail) && OneSided(tail, buySide)
    requires Payable(env, inbound, done + [e] + tail, price, sb)
    requires AllRegular(done) && AllCross(done, price) && CrossingQty(done, price) < inbound.openQty
    requires e.tracker.aon && e.key.Matches(price) && e.tracker.openQty <= inbound.openQty
    requires inbound.openQty <= e.tracker.openQty + CrossingQty(done, price) + RegularQty(tail, price)
    ensures MatchAon(env, inbound, inbound.openQty, price, done, [e] + tail, Ids(done), CrossingQty(done, price),
                     sb).inbound.openQty == 0
  {
    hide MatchAon, Runs, PaidQty, PlanQty, Held, CrossingQty, Ids;
    var qty, cur, heldQty := inbound.openQty, e.tracker.openQty, CrossingQty(done, price);
    DistinctPrefix(done, e, tail);
    assert Distinct(done) by {
      assert forall j :: 0 <= j < |done| ==> done[j] == (done + [e])[j];
    }
    HeldAll(done, price, qty);
    HeldAll(done, price, qty - cur);
    PayableParts(env, inbound, done + [e], tail, price, sb);
    PayableParts(env, inbound, done, [e], price, sb);
    PayableFor(env, inbound, [e], price, sb, 0);
    if cur + heldQty >= qty {
      PayableIsPaid(env, inbound, price, Ids(done), done, qty - cur, sb);
      AonCompletes(env, inbound, price, done, e, tail, Ids(done), heldQty, sb);
    } else {
      GivesAllNext(Ids(done), heldQty, done, e, qty, price);
      HeldMore(env, inbound, price, done, e, tail, Ids(done), heldQty, sb);
      HeldGrows(Ids(done), done, e, price);
      AonTakesRegular(env, inbound, price, done + [e], tail, Ids(done) + [e.tracker.ptr], heldQty + cur, buySide, sb);
    }
  }

  lemma HeldMore(env: OrderMap, inbound: Tracker, price: nat, done: seq<Entry>, e: Entry, tail: seq<Entry>,
                 held: seq<OrderId>, heldQty: nat, sb: StopBook)
    requires e.key.Matches(price) && e.tracker.openQty + heldQty < inbound.openQty
    ensures MatchAon(env, inbound, inbound.openQty, price, done, [e] + tail, held, heldQty, sb)
         == MatchAon(env, inbound, inbound.openQty, price, done + [e], tail, held + [e.tracker.ptr],
                     heldQty + e.tracker.openQty, sb)
  {
    assert ([e] + tail)[0] == e && ([e] + tail)[1..] == tail;
  }

  // ---- And no more than that ----

  /** Open quantity of the all-or-none orders an inbound price crosses. */
  function AonQty(side: seq<Entry>, price: nat): nat {
    if side == [] then 0
    else (if side[0].tracker.aon && side[0].key.Matches(price) then side[0].tracker.openQty else 0)
         + AonQty(side[1..], price)
  }

  lemma {:induction false} AonAppend(a: seq<Entry>, b: seq<Entry>, price: nat)
    ensures AonQty(a + b, price) == AonQty(a, price) + AonQty(b, price)
  {
    if a == [] {
      assert a + b == b;
    } else {
      assert (a + b)[1..] == a[1..] + b;
      AonAppend(a[1..], b, price);
    }
  }

  lemma KindsSplit(s: seq<Entry>, k: nat, price: nat)
    requires k < |s|
    ensures RegularQty(s, price)
         == RegularQty(s[..k], price) + RegularQty([s[k]], price) + RegularQty(s[k + 1..], price)
    ensures AonQty(s, price) == AonQty(s[..k], price) + AonQty([s[k]], price) + AonQty(s[k + 1..], price)
  {
    RegularSplit(s, k, price);
    assert s == s[..k] + [s[k]] + s[k + 1..];
    AonAppend(s[..k] + [s[k]], s[k + 1..], price);
    AonAppend(s[..k], [s[k]], price);
  }

  lemma KindsOne(e: Entry, price: nat)
    ensures RegularQty([e], price) == if !e.tracker.aon && e.key.Matches(price) then e.tracker.openQty else 0
    ensures AonQty([e], price) == if e.tracker.aon && e.key.Matches(price) then e.tracker.openQty else 0
  {
    assert [e][1..] == [];
  }

  /** A trade takes from the kind of its resting order what it trades. */
  lemma KindsSettle(s: seq<Entry>, k: nat, q: nat, price: nat)
    requires k < |s| && s[k].key.Matches(price) && q <= s[k].tracker.openQty
    ensures var s' := Settle(s, k, s[k].tracker.Reduce(q));
            if s[k].tracker.aon then
                AonQty(s', price) + q == AonQty(s, price) && RegularQty(s', price) == RegularQty(s, price)
            else RegularQty(s', price) + q == RegularQty(s, price) && AonQty(s', price) == AonQty(s, price)
  {
    var t := s[k].tracker.Reduce(q);
    KindsSplit(s, k, price);
    KindsOne(s[k], price);
    if t.openQty == 0 {
      RegularAppend(s[..k], s[k + 1..], price);
      AonAppend(s[..k], s[k + 1..], price);
    } else {
      var e := s[k].(tracker := t);
      var s' := s[k := e];
      assert s'[..k] == s[..k] && s'[k + 1..] == s[k + 1..];
      KindsSplit(s', k, price);
      KindsOne(e, price);
    }
  }

  ghost predicate AonsOf(side: seq<Entry>, cur: nat) {
    forall j :: 0 <= j < |side| && side[j].tracker.aon ==> side[j].tracker.openQty == cur
  }

  lemma SettleKeepsAonsOf(s: seq<Entry>, k: nat, q: nat, cur: nat)
    requires k < |s| && AonsOf(s, cur) && (s[k].tracker.aon ==> q == s[k].tracker.openQty)
    ensures AonsOf(Settle(s, k, s[k].tracker.Reduce(q)), cur)
  {
  }

  /** What a run takes: from the regular orders alone, or also the one all-or-none order. */
  lemma {:induction false} RunTakesKinds(env: OrderMap, price: nat, f: Face, fills: seq<Callback>, g: Face, cur: nat)
    requires Runs(env, price, f, fills, g) && AonsOf(f.side, cur) && AonQty(f.side, price) <= cur
    ensures var d := f.inbound.openQty - g.inbound.openQty;
            0 <= d <= RegularQty(f.side, price)
            || (AonQty(f.side, price) == cur && cur <= d <= cur + RegularQty(f.side, price))
    decreases |fills|
  {
    hide Settle, IndexOf, Matching.SetMarketPrice;
    if fills != [] {
      var cb := fills[0];
      var k := IndexOf(f.side, cb.matched);
      KindsSettle(f.side, k, cb.quantity, price);
      SettleKeepsAonsOf(f.side, k, cb.quantity, cur);
      assert f.side[k].tracker.aon ==> cb.quantity == cur;
      var f' := ApplyFill(f, cb);
      assert f'.side == Settle(f.side, k, f.side[k].tracker.Reduce(cb.quantity));
      assert f'.inbound.openQty + cb.quantity == f.inbound.openQty;
      RunTakesKinds(env, price, f', fills[1..], g, cur);
    }
  }

  lemma {:induction false} OnlyAonQty(side: seq<Entry>, k: nat, price: nat)
    requires OnlyAonAt(side, k)
    ensures AonQty(side, price) == if side[k].key.Matches(price) then side[k].tracker.openQty else 0
    decreases |side|
  {
    if k == 0 {
      NoAonQty(side[1..], price);
    } else {
      assert OnlyAonAt(side[1..], k - 1);
      OnlyAonQty(side[1..], k - 1, price);
    }
  }

  lemma {:induction false} NoAonQty(side: seq<Entry>, price: nat)
    requires AllRegular(side)
    ensures AonQty(side, price) == 0
  {
    if side != [] {
      NoAonQty(side[1..], price);
    }
  }

  /** An inbound all-or-none order that crosses regular orders and one all-or-none order is filled if
      and only if the regular ones have enough for it, or for what that one leaves of it. */
  lemma AonWithOneExactlyWhen(env: OrderMap, inbound: Tracker, price: nat, side: seq<Entry>, buySide: bool, k: nat,
                              sb: StopBook)
    requires inbound.aon && inbound.openQty > 0 && Payable(env, inbound, side, price, sb)
    requires Clean(side) && Sorted(side) && OneSided(side, buySide)
    requires OnlyAonAt(side, k) && side[k].key.Matches(price)
    ensures MatchOrder(env, inbound, price, side, sb).inbound.openQty == 0
       <==> || inbound.openQty <= RegularQty(side, price)
            || side[k].tracker.openQty <= inbound.openQty <= side[k].tracker.openQty + RegularQty(side, price)
  {
    hide MatchAon, Payable, AonSafe, Clean, RegularQty;
    var cur, qty := side[k].tracker.openQty, inbound.openQty;
    EmptyStart(side, price);
    if qty <= RegularQty(side, price) {
      AonTakesRegular(env, inbound, price, [], side, [], 0, buySide, sb);
    } else if cur <= qty <= cur + RegularQty(side, price) {
      AonTakesOne(env, inbound, price, [], side, k, buySide, sb);
    } else {
      FilledTakesKinds(env, inbound, price, side, k, sb);
    }
  }

  lemma FilledTakesKinds(env: OrderMap, inbound: Tracker, price: nat, side: seq<Entry>, k: nat, sb: StopBook)
    requires Clean(side) && Payable(env, inbound, side, price, sb) && OnlyAonAt(side, k) && side[k].key.Matches(price)
    ensures MatchAon(env, inbound, inbound.openQty, price, [], side, [], 0, sb).inbound.openQty == 0 ==>
              || inbound.openQty <= RegularQty(side, price)
              || side[k].tracker.openQty <= inbound.openQty <= side[k].tracker.openQty + RegularQty(side, price)
  {
    hide MatchAon, Payable, AonSafe, Clean, Runs, RegularQty, AonQty;
    EmptyStart(side, price);
    PayableIsSafe(env, inbound, price, [], side, [], 0, sb);
    MatchAonRuns(env, inbound, price, [], side, [], 0, sb);
    var m := MatchAon(env, inbound, inbound.openQty, price, [], side, [], 0, sb);
    OnlyAonQty(side, k, price);
    assert AonsOf(side, side[k].tracker.openQty);
    RunTakesKinds(env, price, Face(inbound, side, sb), m.fills, Face(m.inbound, m.side, m.stops),
                  side[k].tracker.openQty);
  }

  lemma EmptyStart(side: seq<Entry>, price: nat)
    ensures [] + side == side && Ids([]) == [] && CrossingQty([], price) == 0
  {
  }

  // ---- A combination that is not found ----

  const THREE_BIDS: OrderMap := map[
    1 := Order(true, 100, 6, 0, 0, 0, Accepted), 2 := Order(true, 100, 7, 0, 0, 0, Accepted),
    3 := Order(true, 100, 3, 0, 0, 0, Accepted), 4 := Order(false, 100, 10, 0, 0, 0, Accepted)]
  const SIX := Entry(ComparablePrice(true, 100), Tracker(1, 6, true, false))
  const SEVEN := Entry(ComparablePrice(true, 100), Tracker(2, 7, true, false))
  const THREE := Entry(ComparablePrice(true, 100), Tracker(3, 3, false, false))

  lemma SixIsHeld()
    ensures PlanQty([1], [SIX], 3) == 0
  {
    assert IndexOf([SIX], 1) == 0 && [1][1..] == [];
  }

  /** A sale of 10, all or none, meets all-or-none bids for 6 and 7 and a bid for 3. The bid for 7 is
      tried with the one for 6 only, and then forgotten; 7 and 3 would have done. */
  lemma CombinationIsMissed()
    ensures MatchOrder(THREE_BIDS, Tracker(4, 10, true, false), 100, [SIX, SEVEN, THREE],
                       StopBook(0, [], [], [])).inbound.openQty == 10
  {
    hide PlanQty, ExecPlan;
    var env, t, sb := THREE_BIDS, Tracker(4, 10, true, false), StopBook(0, [], [], []);
    SixIsHeld();
    assert [SIX, SEVEN, THREE][1..] == [SEVEN, THREE] && [SEVEN, THREE][1..] == [THREE] && [THREE][1..] == [];
    assert [] + [SIX] == [SIX] && [] + [1] == [1] && [SIX] + [SEVEN] == [SIX, SEVEN];
    assert TryDeferred(env, t, [1], 3, 3, [SIX], sb) == Deferred(t, [SIX], sb, 0, []);
    assert MatchAon(env, t, 10, 100, [SIX, SEVEN], [THREE], [1], 6, sb).inbound == t;
    assert MatchAon(env, t, 10, 100, [SIX], [SEVEN, THREE], [1], 6, sb).inbound == t;
  }
}
