/** All-or-none matching: the two-pass allocation over deferred orders trades all it
    planned, so an all-or-none inbound order is filled completely or not at all. */
module AllOrNone {
  import opened Prices
  import opened Orders
  import opened Books
  import opened Matching
  import opened Faces

  /** A trade with this inbound order always finds a price. */
  predicate Priced(env: OrderMap, inbound: Tracker, sb: StopBook) {
    PriceOf(env, inbound.ptr) != MARKET_ORDER_PRICE || sb.marketPrice != MARKET_ORDER_PRICE
  }

  /** The deferred orders are different orders of this side, all crossing the inbound price. */
  ghost predicate Held(ids: seq<OrderId>, side: seq<Entry>, price: nat) {
    && (forall i :: 0 <= i < |ids| ==> Crossing(side, ids[i], price))
    && (forall i, j :: 0 <= i < j < |ids| ==> ids[i] != ids[j])
  }

  ghost predicate Crossing(side: seq<Entry>, id: OrderId, price: nat) {
    var k := IndexOf(side, id);
    k < |side| && side[k].key.Matches(price)
  }

  /** A trade with this resting order finds a price. */
  predicate PaysFor(env: OrderMap, inbound: Tracker, current: Tracker, sb: StopBook) {
    Priced(env, inbound, sb) || PriceOf(env, current.ptr) != MARKET_ORDER_PRICE
  }

  /** Every trade of this inbound order on this side finds a price: the order has one, or the
      market has, or every order that it crosses. */
  ghost predicate Payable(env: OrderMap, inbound: Tracker, side: seq<Entry>, price: nat, sb: StopBook) {
    || Priced(env, inbound, sb)
    || forall k :: 0 <= k < |side| && side[k].key.Matches(price) ==>
       PriceOf(env, side[k].tracker.ptr) != MARKET_ORDER_PRICE
  }

  lemma PayableFor(env: OrderMap, inbound: Tracker, side: seq<Entry>, price: nat, sb: StopBook, k: nat)
    requires Payable(env, inbound, side, price, sb) && k < |side| && side[k].key.Matches(price)
    ensures PaysFor(env, inbound, side[k].tracker, sb)
  {
  }

  lemma PayableOn(env: OrderMap, inbound: Tracker, side: seq<Entry>, price: nat, sb: StopBook, inbound': Tracker,
                  sb': StopBook)
    requires Payable(env, inbound, side, price, sb)
    requires Priced(env, inbound, sb) ==> Priced(env, inbound', sb')
    ensures Payable(env, inbound', side, price, sb')
  {
  }

  lemma PayableParts(env: OrderMap, inbound: Tracker, a: seq<Entry>, b: seq<Entry>, price: nat, sb: StopBook)
    requires Payable(env, inbound, a + b, price, sb)
    ensures Payable(env, inbound, a, price, sb) && Payable(env, inbound, b, price, sb)
  {
    assert forall k :: 0 <= k < |a| ==> a[k] == (a + b)[k];
    assert forall k :: 0 <= k < |b| ==> b[k] == (a + b)[|a| + k];
  }

  lemma TradeIsPriced(env: OrderMap, inbound: Tracker, current: Tracker, maxQty: nat, sb: StopBook)
    requires PaysFor(env, inbound, current, sb)
    ensures var t := CreateTrade(env, inbound, current, maxQty, sb);
            && t.qty == Min(maxQty, Min(inbound.openQty, current.openQty))
            && (Priced(env, inbound, sb) ==> Priced(env, t.inbound, t.stops))
  {
  }

  /** Settling one order leaves every other one findable and as it was. */
  lemma SettleKeepsOthers(side: seq<Entry>, k: nat, t: Tracker, id: OrderId)
    requires k < |side| && Distinct(side) && t.ptr == side[k].tracker.ptr && t.ptr != id
    requires IndexOf(side, id) < |side|
    ensures var s := Settle(side, k, t);
            IndexOf(s, id) < |s| && s[IndexOf(s, id)] == side[IndexOf(side, id)]
  {
    var j := IndexOf(side, id);
    var s := Settle(side, k, t);
    var j' := if t.openQty == 0 && k < j then j - 1 else j;
    assert s[j'] == side[j];
    assert Distinct(s) by {
      assert forall i :: 0 <= i < |s| ==>
             s[i].tracker.ptr == side[if t.openQty == 0 && k <= i then i + 1 else i].tracker.ptr;
    }
    IndexOfUnique(s, j');
  }

  lemma {:induction false} PlanIgnoresOthers(ids: seq<OrderId>, side: seq<Entry>, k: nat, t: Tracker, left: nat,
                                             price: nat)
    requires k < |side| && Distinct(side) && t.ptr == side[k].tracker.ptr && t.ptr !in ids
    requires Held(ids, side, price)
    ensures Held(ids, Settle(side, k, t), price)
    ensures PlanQty(ids, Settle(side, k, t), left) == PlanQty(ids, side, left)
    decreases |ids|
  {
    hide Settle, Share, IndexOf;
    forall i | 0 <= i < |ids|
      ensures Crossing(Settle(side, k, t), ids[i], price)
    {
      assert Crossing(side, ids[i], price);
      SettleKeepsOthers(side, k, t, ids[i]);
    }
    if ids != [] && left != 0 {
      assert Crossing(side, ids[0], price);
      SettleKeepsOthers(side, k, t, ids[0]);
      var q := Share(side[IndexOf(side, ids[0])].tracker, left);
      assert forall i :: 0 <= i < |ids| - 1 ==> ids[1..][i] == ids[i + 1];
      PlanIgnoresOthers(ids[1..], side, k, t, left - q, price);
    }
  }

  lemma EmptyRun(env: OrderMap, price: nat, f: Face)
    ensures Runs(env, price, f, [], f)
  {
  }

  // ---- What the second pass trades ----

  /** What the deferred orders give in the second pass: nothing until one of them finds a price; from
      then on the market has one, and the others give what was planned. */
  function PaidQty(env: OrderMap, inbound: Tracker, ids: seq<OrderId>, side: seq<Entry>, left: nat,
                   sb: StopBook): (paid: nat)
    ensures paid <= left
  {
    if ids == [] || left == 0 then 0
    else
      var k := IndexOf(side, ids[0]);
      var q := if k < |side| then Share(side[k].tracker, left) else 0;
      if q > 0 && PaysFor(env, inbound, side[k].tracker, sb) then q + PlanQty(ids[1..], side, left - q)
      else PaidQty(env, inbound, ids[1..], side, left - q, sb)
  }

  /** The first deferred order that is to give anything finds a price. */
  predicate PlanPays(env: OrderMap, inbound: Tracker, ids: seq<OrderId>, side: seq<Entry>, left: nat, sb: StopBook) {
    ids == [] || left == 0
    || var k := IndexOf(side, ids[0]);
       var q := if k < |side| then Share(side[k].tracker, left) else 0;
       if q > 0 then PaysFor(env, inbound, side[k].tracker, sb)
       else PlanPays(env, inbound, ids[1..], side, left, sb)
  }

  /** Some deferred order that is to give something finds a price. */
  predicate SomePays(env: OrderMap, inbound: Tracker, ids: seq<OrderId>, side: seq<Entry>, left: nat, sb: StopBook) {
    ids != [] && left != 0
    && var k := IndexOf(side, ids[0]);
       var q := if k < |side| then Share(side[k].tracker, left) else 0;
       (q > 0 && PaysFor(env, inbound, side[k].tracker, sb)) || SomePays(env, inbound, ids[1..], side, left - q, sb)
  }

  lemma {:induction false} PaidExactlyWhen(env: OrderMap, inbound: Tracker, ids: seq<OrderId>, side: seq<Entry>,
                                           left: nat, sb: StopBook)
    ensures PaidQty(env, inbound, ids, side, left, sb) <= PlanQty(ids, side, left)
    ensures PaidQty(env, inbound, ids, side, left, sb) == PlanQty(ids, side, left)
       <==> PlanPays(env, inbound, ids, side, left, sb)
    ensures PaidQty(env, inbound, ids, side, left, sb) > 0 <==> SomePays(env, inbound, ids, side, left, sb)
    decreases |ids|
  {
    hide Share, IndexOf, PaysFor;
    if ids != [] && left != 0 {
      var k := IndexOf(side, ids[0]);
      var q := if k < |side| then Share(side[k].tracker, left) else 0;
      PaidExactlyWhen(env, inbound, ids[1..], side, left - q, sb);
    }
  }

  /** With a price for every order, everything that is planned is paid. */
  lemma {:induction false} PayableIsPaid(env: OrderMap, inbound: Tracker, price: nat, ids: seq<OrderId>,
                                         side: seq<Entry>, left: nat, sb: StopBook)
    requires Held(ids, side, price) && Payable(env, inbound, side, price, sb)
    ensures PaidQty(env, inbound, ids, side, left, sb) == PlanQty(ids, side, left)
    decreases |ids|
  {
    hide Share, Payable, PaysFor;
    if ids != [] && left != 0 {
      var k := IndexOf(side, ids[0]);
      assert Crossing(side, ids[0], price);
      PayableFor(env, inbound, side, price, sb, k);
      HeldTail(ids, side, price);
      PayableIsPaid(env, inbound, price, ids[1..], side, left - Share(side[k].tracker, left), sb);
    }
  }

  lemma {:induction false} PricedIsPaid(env: OrderMap, inbound: Tracker, ids: seq<OrderId>, side: seq<Entry>,
                                        left: nat, sb: StopBook)
    requires Priced(env, inbound, sb)
    ensures PaidQty(env, inbound, ids, side, left, sb) == PlanQty(ids, side, left)
    decreases |ids|
  {
    hide Share, IndexOf;
    if ids != [] && left != 0 {
      var k := IndexOf(side, ids[0]);
      var q := if k < |side| then Share(side[k].tracker, left) else 0;
      PricedIsPaid(env, inbound, ids[1..], side, left - q, sb);
    }
  }

  /** The second pass is a run, and trades exactly what is paid for. */
  lemma ExecPlanRuns(env: OrderMap, inbound: Tracker, price: nat, ids: seq<OrderId>, side: seq<Entry>, left: nat,
                     sb: StopBook)
    requires Clean(side) && Held(ids, side, price) && left <= inbound.openQty
    ensures var d := ExecPlan(env, inbound, ids, side, left, sb);
            && Runs(env, price, Face(inbound, side, sb), d.fills, Face(d.inbound, d.side, d.stops))
            && d.traded == PaidQty(env, inbound, ids, side, left, sb)
            && d.inbound == inbound.(openQty := inbound.openQty - d.traded)
            && (d.traded > 0 || Priced(env, inbound, sb) ==> Priced(env, d.inbound, d.stops))
            && (d.traded == 0 ==> d == Deferred(inbound, side, sb, 0, []))
  {
    hide Runs, ExecPlan, PaidQty, Clean, Held, Priced;
    ExecPlanIsRun(env, inbound, price, ids, side, left, sb);
    ExecPlanPays(env, inbound, price, ids, side, left, sb);
  }

  lemma {:induction false} ExecPlanIsRun(env: OrderMap, inbound: Tracker, price: nat, ids: seq<OrderId>,
                                         side: seq<Entry>, left: nat, sb: StopBook)
    requires Clean(side) && Held(ids, side, price) && left <= inbound.openQty
    ensures var d := ExecPlan(env, inbound, ids, side, left, sb);
            Runs(env, price, Face(inbound, side, sb), d.fills, Face(d.inbound, d.side, d.stops))
    decreases |ids|
  {
    hide Runs, Settle, CreateTrade, Share, Priced, PaysFor, PlanQty, PaidQty, ExecPlan, Distinct;
    if ids == [] || left == 0 {
      NothingPlanned(env, inbound, ids, side, left, sb);
      EmptyRun(env, price, Face(inbound, side, sb));
      return;
    }
    assert Crossing(side, ids[0], price);
    var k := IndexOf(side, ids[0]);
    var q := Share(side[k].tracker, left);
    var t := CreateTrade(env, inbound, side[k].tracker, q, sb);
    DeferredTrade(env, inbound, side, k, left, sb);
    TradeRuns(env, price, inbound, side, k, q, sb);
    AfterDeferred(env, inbound, price, ids, side, left, sb, k, t);
    var side' := Settle(side, k, t.current);
    ExecPlanIsRun(env, t.inbound, price, ids[1..], side', left - q, t.stops);
    var d := ExecPlan(env, t.inbound, ids[1..], side', left - q, t.stops);
    RunsAppend(env, price, Face(inbound, side, sb), t.fills, Face(t.inbound, side', t.stops), d.fills,
               Face(d.inbound, d.side, d.stops));
    NextPlanned(env, inbound, ids, side, left, sb);
  }

  lemma {:induction false} ExecPlanPays(env: OrderMap, inbound: Tracker, price: nat, ids: seq<OrderId>,
                                        side: seq<Entry>, left: nat, sb: StopBook)
    requires Clean(side) && Held(ids, side, price) && left <= inbound.openQty
    ensures var d := ExecPlan(env, inbound, ids, side, left, sb);
            && d.traded == PaidQty(env, inbound, ids, side, left, sb)
            && d.inbound == inbound.(openQty := inbound.openQty - d.traded)
            && (d.traded > 0 || Priced(env, inbound, sb) ==> Priced(env, d.inbound, d.stops))
            && (d.traded == 0 ==> d == Deferred(inbound, side, sb, 0, []))
    decreases |ids|
  {
    hide Settle, CreateTrade, Share, Priced, PaysFor, PlanQty, PaidQty, ExecPlan, Distinct;
    if ids == [] || left == 0 {
      NothingPlanned(env, inbound, ids, side, left, sb);
      return;
    }
    assert Crossing(side, ids[0], price);
    var k := IndexOf(side, ids[0]);
    var q := Share(side[k].tracker, left);
    var t := CreateTrade(env, inbound, side[k].tracker, q, sb);
    DeferredTrade(env, inbound, side, k, left, sb);
    AfterDeferred(env, inbound, price, ids, side, left, sb, k, t);
    var side' := Settle(side, k, t.current);
    ExecPlanPays(env, t.inbound, price, ids[1..], side', left - q, t.stops);
    if t.qty > 0 {
      PricedIsPaid(env, t.inbound, ids[1..], side', left - q, t.stops);
    }
    NextPlanned(env, inbound, ids, side, left, sb);
  }

  /** What holds of the deferred orders that are left once one has been tried. */
  lemma AfterDeferred(env: OrderMap, inbound: Tracker, price: nat, ids: seq<OrderId>, side: seq<Entry>, left: nat,
                      sb: StopBook, k: nat, t: Trade)
    requires Clean(side) && Held(ids, side, price) && left <= inbound.openQty && ids != [] && left != 0
    requires k == IndexOf(side, ids[0]) < |side|
    requires t == CreateTrade(env, inbound, side[k].tracker, Share(side[k].tracker, left), sb)
    ensures var q, side' := Share(side[k].tracker, left), Settle(side, k, t.current);
            && q <= left && left - q <= t.inbound.openQty
            && Clean(side') && Held(ids[1..], side', price)
            && PlanQty(ids[1..], side', left - q) == PlanQty(ids[1..], side, left - q)
  {
    hide Settle, PlanQty;
    SettleKeepsNodes(side, k, t.current);
    HeldTail(ids, side, price);
    PlanIgnoresOthers(ids[1..], side, k, t.current, left - Share(side[k].tracker, left), price);
  }

  lemma NothingPlanned(env: OrderMap, inbound: Tracker, ids: seq<OrderId>, side: seq<Entry>, left: nat, sb: StopBook)
    requires ids == [] || left == 0
    ensures ExecPlan(env, inbound, ids, side, left, sb) == Deferred(inbound, side, sb, 0, [])
    ensures PlanQty(ids, side, left) == 0 && PaidQty(env, inbound, ids, side, left, sb) == 0
    ensures inbound == inbound.(openQty := inbound.openQty - 0)
  {
  }

  /** The trade with one deferred order, for what it may contribute: all of it or nothing. */
  lemma DeferredTrade(env: OrderMap, inbound: Tracker, side: seq<Entry>, k: nat, left: nat, sb: StopBook)
    requires left <= inbound.openQty && k < |side| && side[k].tracker.openQty > 0
    ensures var current := side[k].tracker;
            var q := Share(current, left);
            var t := CreateTrade(env, inbound, current, q, sb);
            && q <= left && t.current.ptr == current.ptr
            && t.qty == (if PaysFor(env, inbound, current, sb) then q else 0)
            && (t.qty > 0 || Priced(env, inbound, sb) ==> Priced(env, t.inbound, t.stops))
            && t.inbound == inbound.(openQty := inbound.openQty - t.qty)
            && (current.aon ==> q == 0 || current.openQty <= Min(q, inbound.openQty))
            && (t.qty == 0 ==> t == Trade(inbound, current, sb, 0, []) && Settle(side, k, t.current) == side)
  {
  }

  lemma NextPlanned(env: OrderMap, inbound: Tracker, ids: seq<OrderId>, side: seq<Entry>, left: nat, sb: StopBook)
    requires ids != [] && left != 0 && IndexOf(side, ids[0]) < |side|
    ensures var k := IndexOf(side, ids[0]);
            var q := Share(side[k].tracker, left);
            var t := CreateTrade(env, inbound, side[k].tracker, q, sb);
            var r := ExecPlan(env, t.inbound, ids[1..], Settle(side, k, t.current), left - q, t.stops);
            && q <= left
            && ExecPlan(env, inbound, ids, side, left, sb) == r.(traded := t.qty + r.traded, fills := t.fills + r.fills)
            && PlanQty(ids, side, left) == q + PlanQty(ids[1..], side, left - q)
            && PaidQty(env, inbound, ids, side, left, sb)
               == if q > 0 && PaysFor(env, inbound, side[k].tracker, sb) then q + PlanQty(ids[1..], side, left - q)
                  else PaidQty(env, inbound, ids[1..], side, left - q, sb)
  {
    hide CreateTrade, Settle, PaysFor;
  }

  lemma HeldTail(ids: seq<OrderId>, side: seq<Entry>, price: nat)
    requires ids != [] && Held(ids, side, price)
    ensures Held(ids[1..], side, price) && ids[0] !in ids[1..]
  {
    assert forall i :: 0 <= i < |ids| - 1 ==> ids[1..][i] == ids[i + 1];
  }

  lemma HeldGrows(ids: seq<OrderId>, side: seq<Entry>, e: Entry, price: nat)
    requires Held(ids, side, price)
    ensures Held(ids, side + [e], price)
    ensures Distinct(side + [e]) && e.key.Matches(price) ==> Held(ids + [e.tracker.ptr], side + [e], price)
  {
    forall i | 0 <= i < |ids|
      ensures Crossing(side + [e], ids[i], price)
    {
      assert Crossing(side, ids[i], price);
      IndexOfAppend(side, [e], ids[i]);
    }
    if Distinct(side + [e]) && e.key.Matches(price) {
      assert (side + [e])[|side|] == e;
      IndexOfUnique(side + [e], |side|);
      assert Crossing(side + [e], e.tracker.ptr, price);
      forall i | 0 <= i < |ids|
        ensures ids[i] != e.tracker.ptr
      {
        assert Crossing(side, ids[i], price);
        IndexOfAppend(side, [e], ids[i]);
      }
    }
  }

  lemma {:induction false} FillsOfTrades(env: OrderMap, inbound: Tracker, ids: seq<OrderId>, side: seq<Entry>,
                                         left: nat, sb: StopBook)
    ensures var d := ExecPlan(env, inbound, ids, side, left, sb); d.traded > 0 <==> d.fills != []
    decreases |ids|
  {
    if ids != [] && left != 0 {
      var k := IndexOf(side, ids[0]);
      if k == |side| {
        FillsOfTrades(env, inbound, ids[1..], side, left, sb);
      } else {
        var q := Share(side[k].tracker, left);
        var t := CreateTrade(env, inbound, side[k].tracker, q, sb);
        FillsOfTrades(env, t.inbound, ids[1..], Settle(side, k, t.current), left - q, t.stops);
      }
    }
  }

  // ---- Trying to fill an all-or-none order ----

  /** What an inbound order asks of the deferred orders, next to a resting one. */
  function MaxFrom(e: Tracker, qty: nat): nat {
    if !e.aon then qty else if e.openQty <= qty then qty - e.openQty else 0
  }

  function MinFrom(e: Tracker, qty: nat): nat {
    if qty > e.openQty then qty - e.openQty else 0
  }

  predicate Enough(e: Tracker, qty: nat, traded: nat) {
    if e.aon then traded == MaxFrom(e, qty) else qty <= e.openQty + traded
  }

  /** What the deferred orders give next to a resting order: what they pay for, if enough is planned. */
  function Offered(env: OrderMap, inbound: Tracker, e: Tracker, held: seq<OrderId>, done: seq<Entry>,
                   sb: StopBook): (p: nat)
    ensures p <= MaxFrom(e, inbound.openQty)
  {
    if PlanQty(held, done, MaxFrom(e, inbound.openQty)) >= MinFrom(e, inbound.openQty)
    then PaidQty(env, inbound, held, done, MaxFrom(e, inbound.openQty), sb)
    else 0
  }

  /** With what is offered the resting order completes the inbound one, at a price. */
  predicate Completes(env: OrderMap, inbound: Tracker, e: Tracker, offered: nat, sb: StopBook) {
    Enough(e, inbound.openQty, offered) && (offered > 0 || PaysFor(env, inbound, e, sb))
  }

  /** The second pass of a try trades what is offered; if nothing is, nothing happens. */
  lemma TryGives(env: OrderMap, inbound: Tracker, price: nat, done: seq<Entry>, e: Tracker, held: seq<OrderId>,
                 sb: StopBook)
    requires Clean(done) && Held(held, done, price)
    ensures var d := TryDeferred(env, inbound, held, MaxFrom(e, inbound.openQty), MinFrom(e, inbound.openQty), done,
                                 sb);
            && d.traded == Offered(env, inbound, e, held, done, sb)
            && d.inbound == inbound.(openQty := inbound.openQty - d.traded)
            && Runs(env, price, Face(inbound, done, sb), d.fills, Face(d.inbound, d.side, d.stops))
            && (d.traded > 0 ==> Priced(env, d.inbound, d.stops) && d.fills != [])
            && (d.traded == 0 ==> d == Deferred(inbound, done, sb, 0, []))
  {
    hide Runs, PaidQty, ExecPlan, Priced, PlanQty;
    var max := MaxFrom(e, inbound.openQty);
    ExecPlanRuns(env, inbound, price, held, done, max, sb);
    FillsOfTrades(env, inbound, held, done, max, sb);
    EmptyRun(env, price, Face(inbound, done, sb));
  }

  /** The second pass falls short of the plan exactly when the first order that is to give anything
      finds no price. It has then filled the order in part exactly when a later one finds one. */
  lemma TryFallsShortExactlyWhen(env: OrderMap, inbound: Tracker, price: nat, ids: seq<OrderId>, maxQty: nat,
                                 minQty: nat, side: seq<Entry>, sb: StopBook)
    requires Clean(side) && Held(ids, side, price) && maxQty <= inbound.openQty
    requires PlanQty(ids, side, maxQty) >= minQty
    ensures var d := TryDeferred(env, inbound, ids, maxQty, minQty, side, sb);
            && (d.traded < PlanQty(ids, side, maxQty) <==> !PlanPays(env, inbound, ids, side, maxQty, sb))
            && (0 < d.traded < PlanQty(ids, side, maxQty)
                <==> !PlanPays(env, inbound, ids, side, maxQty, sb) && SomePays(env, inbound, ids, side, maxQty, sb))
  {
    hide ExecPlan, PlanQty, PaidQty, PlanPays, SomePays;
    ExecPlanRuns(env, inbound, price, ids, side, maxQty, sb);
    PaidExactlyWhen(env, inbound, ids, side, maxQty, sb);
  }

  /** The planned trades as a run against the whole side. */
  lemma DeferredRuns(env: OrderMap, inbound: Tracker, price: nat, done: seq<Entry>, rest: seq<Entry>, e: Tracker,
                     held: seq<OrderId>, sb: StopBook)
    requires Clean(done + rest) && Held(held, done, price)
    ensures var d := TryDeferred(env, inbound, held, MaxFrom(e, inbound.openQty), MinFrom(e, inbound.openQty), done,
                                 sb);
            && Runs(env, price, Face(inbound, done + rest, sb), d.fills, Face(d.inbound, d.side + rest, d.stops))
            && Clean(d.side + rest)
  {
    hide TryDeferred;
    var d := TryDeferred(env, inbound, held, MaxFrom(e, inbound.openQty), MinFrom(e, inbound.openQty), done, sb);
    assert Clean(done) by {
      assert forall k :: 0 <= k < |done| ==> done[k] == (done + rest)[k];
    }
    TryGives(env, inbound, price, done, e, held, sb);
    RunsExtend(env, price, Face(inbound, done, sb), d.fills, Face(d.inbound, d.side, d.stops), rest);
    RunsKeepClean(env, price, Face(inbound, done + rest, sb), d.fills, Face(d.inbound, d.side + rest, d.stops));
  }

  /** The quantities of a try that completes the inbound order. */
  lemma AonQuantities(env: OrderMap, inbound: Tracker, price: nat, done: seq<Entry>, e: Tracker, held: seq<OrderId>,
                      sb: StopBook)
    requires Clean(done) && Held(held, done, price)
    requires inbound.openQty > 0 && e.openQty > 0 && (e.aon ==> e.openQty <= inbound.openQty)
    requires Completes(env, inbound, e, Offered(env, inbound, e, held, done, sb), sb)
    ensures var d := TryDeferred(env, inbound, held, MaxFrom(e, inbound.openQty), MinFrom(e, inbound.openQty), done,
                                 sb);
            var t := CreateTrade(env, d.inbound, e, d.inbound.openQty, d.stops);
            && d.inbound.openQty == inbound.openQty - d.traded <= e.openQty
            && t.inbound.openQty == 0
            && d.traded + t.qty == inbound.openQty
            && d.fills + t.fills != []
            && (e.aon ==> t.qty > 0 && t.current.openQty == 0)
  {
    hide TryDeferred, Offered, CreateTrade, Runs, Priced;
    var d := TryDeferred(env, inbound, held, MaxFrom(e, inbound.openQty), MinFrom(e, inbound.openQty), done, sb);
    TryGives(env, inbound, price, done, e, held, sb);
    assert PaysFor(env, d.inbound, e, d.stops);
    TradeIsPriced(env, d.inbound, e, d.inbound.openQty, d.stops);
  }

  /** Either the inbound order is complete, or nothing at all happened. */
  ghost predicate AonOutcome(env: OrderMap, inbound: Tracker, price: nat, side: seq<Entry>, sb: StopBook, m: Match) {
    && Runs(env, price, Face(inbound, side, sb), m.fills, Face(m.inbound, m.side, m.stops))
    && (m.inbound.openQty == 0 || m == Match(inbound, side, sb, m.deferred, [], false))
    && (m.matched <==> m.fills != [])
  }

  lemma AonCompletes(env: OrderMap, inbound: Tracker, price: nat, done: seq<Entry>, e: Entry, tail: seq<Entry>,
                     held: seq<OrderId>, heldQty: nat, sb: StopBook)
    requires Clean(done + [e] + tail) && Held(held, done, price) && e.key.Matches(price)
    requires 0 < inbound.openQty <= e.tracker.openQty + heldQty
    requires e.tracker.aon ==> e.tracker.openQty <= inbound.openQty
    requires Completes(env, inbound, e.tracker, Offered(env, inbound, e.tracker, held, done, sb), sb)
    ensures var m := MatchAon(env, inbound, inbound.openQty, price, done, [e] + tail, held, heldQty, sb);
            AonOutcome(env, inbound, price, done + [e] + tail, sb, m) && m.inbound.openQty == 0
  {
    hide Runs, Held, MatchAon, TryDeferred, Offered, Completes, CreateTrade;
    var side := done + [e] + tail;
    var d := TryDeferred(env, inbound, held, MaxFrom(e.tracker, inbound.openQty), MinFrom(e.tracker, inbound.openQty),
                         done, sb);
    var t := CreateTrade(env, d.inbound, e.tracker, d.inbound.openQty, d.stops);
    assert done + ([e] + tail) == side;
    assert d.side + ([e] + tail) == d.side + [e] + tail;
    assert Clean(done) && e.tracker.openQty > 0 by {
      assert forall k :: 0 <= k < |done| ==> done[k] == side[k];
      assert side[|done|] == e;
    }
    AonQuantities(env, inbound, price, done, e.tracker, held, sb);
    DeferredRuns(env, inbound, price, done, [e] + tail, e.tracker, held, sb);
    TradeNext(env, price, d.inbound, d.side, e, tail, d.inbound.openQty, d.stops);
    var end := Face(t.inbound, Past(d.side, e, t.current) + tail, t.stops);
    RunsAppend(env, price, Face(inbound, side, sb), d.fills, Face(d.inbound, d.side + [e] + tail, d.stops), t.fills,
               end);
    TryGives(env, inbound, price, done, e.tracker, held, sb);
    AonCompletesResult(env, inbound, price, done, e, tail, held, heldQty, d, t, sb);
  }

  lemma AonCompletesResult(env: OrderMap, inbound: Tracker, price: nat, done: seq<Entry>, e: Entry, tail: seq<Entry>,
                           held: seq<OrderId>, heldQty: nat, d: Deferred, t: Trade, sb: StopBook)
    requires e.key.Matches(price)
    requires 0 < inbound.openQty <= e.tracker.openQty + heldQty
    requires e.tracker.aon ==> e.tracker.openQty <= inbound.openQty
    requires d == TryDeferred(env, inbound, held, MaxFrom(e.tracker, inbound.openQty),
                              MinFrom(e.tracker, inbound.openQty), done, sb)
    requires t == CreateTrade(env, d.inbound, e.tracker, d.inbound.openQty, d.stops)
    requires Enough(e.tracker, inbound.openQty, d.traded)
    requires t.inbound.openQty == 0 && d.traded + t.qty == inbound.openQty
    requires e.tracker.aon ==> t.qty > 0 && t.current.openQty == 0
    ensures MatchAon(env, inbound, inbound.openQty, price, done, [e] + tail, held, heldQty, sb)
         == Match(t.inbound, Past(d.side, e, t.current) + tail, t.stops, [], d.fills + t.fills, true)
  {
    hide CreateTrade, TryDeferred, Past, MatchAon;
    NothingLeft(env, t.inbound, price, Past(d.side, e, t.current), tail, held, heldQty, t.stops);
    AonStep(env, inbound, price, done, e, tail, held, heldQty, d, t, sb);
    assert (d.fills + t.fills) + [] == d.fills + t.fills;
  }

  lemma NothingLeft(env: OrderMap, inbound: Tracker, price: nat, past: seq<Entry>, tail: seq<Entry>,
                    held: seq<OrderId>, heldQty: nat, sb: StopBook)
    requires inbound.openQty == 0
    ensures MatchAon(env, inbound, 0, price, past, tail, held, heldQty, sb)
            == Match(inbound, past + tail, sb, [], [], false)
  {
  }

  /** The step that completes the inbound order, with the deferred trades and the current one
      given. */
  lemma AonStep(env: OrderMap, inbound: Tracker, price: nat, done: seq<Entry>, e: Entry, tail: seq<Entry>,
                held: seq<OrderId>, heldQty: nat, d: Deferred, t: Trade, sb: StopBook)
    requires e.key.Matches(price)
    requires 0 < inbound.openQty <= e.tracker.openQty + heldQty
    requires e.tracker.aon ==> e.tracker.openQty <= inbound.openQty
    requires var qty, cur := inbound.openQty, e.tracker.openQty;
             && d == TryDeferred(env, inbound, held, if e.tracker.aon then qty - cur else qty, if qty > cur then
                                 qty - cur else 0, done, sb)
             && t == CreateTrade(env, d.inbound, e.tracker, d.inbound.openQty, d.stops)
             && (if e.tracker.aon then d.traded + cur == qty && t.qty > 0 && t.current.openQty == 0
                 else qty <= cur + d.traded)
             && d.traded + t.qty == qty
    ensures MatchAon(env, inbound, inbound.openQty, price, done, [e] + tail, held, heldQty, sb)
         == MatchAon(env, t.inbound, 0, price, Past(d.side, e, t.current), tail, held, heldQty, t.stops)
              .After(d.fills + t.fills, true)
  {
    hide Settle, IndexOf;
    assert e.tracker.aon ==> Past(d.side, e, t.current) == d.side;
    hide CreateTrade, TryDeferred, Past;
    var rest := [e] + tail;
    assert rest[0] == e && rest[1..] == tail;
  }

  /** No try leaves the order filled in part: the first one that trades anything completes it. With a
      price for every trade this is so; without, it depends on which deferred orders are to give. */
  predicate AonSafe(env: OrderMap, inbound: Tracker, price: nat, done: seq<Entry>, rest: seq<Entry>,
                    held: seq<OrderId>, heldQty: nat, sb: StopBook)
    decreases |rest|
  {
    if rest == [] || inbound.openQty == 0 || !rest[0].key.Matches(price) then true
    else
      var e, tail := rest[0], rest[1..];
      var qty, cur := inbound.openQty, e.tracker.openQty;
      if e.tracker.aon && qty < cur then AonSafe(env, inbound, price, done + [e], tail, held, heldQty, sb)
      else if cur + heldQty < qty then
        AonSafe(env, inbound, price, done + [e], tail, held + [e.tracker.ptr], heldQty + cur, sb)
      else
        var offered := Offered(env, inbound, e.tracker, held, done, sb);
        || Completes(env, inbound, e.tracker, offered, sb)
        || (offered == 0 && AonSafe(env, inbound, price, done + [e], tail, held, heldQty, sb))
  }

  lemma {:induction false} PayableIsSafe(env: OrderMap, inbound: Tracker, price: nat, done: seq<Entry>,
                                         rest: seq<Entry>, held: seq<OrderId>, heldQty: nat, sb: StopBook)
    requires Clean(done + rest) && Held(held, done, price) && Payable(env, inbound, done + rest, price, sb)
    ensures AonSafe(env, inbound, price, done, rest, held, heldQty, sb)
    decreases |rest|
  {
    if rest == [] || inbound.openQty == 0 || !rest[0].key.Matches(price) {
      return;
    }
    var e, tail := rest[0], rest[1..];
    assert [e] + tail == rest && done + [e] + tail == done + rest;
    HeldNext(done, e, tail, held, price);
    if e.tracker.aon && inbound.openQty < e.tracker.openQty {
      PayableIsSafe(env, inbound, price, done + [e], tail, held, heldQty, sb);
    } else if e.tracker.openQty + heldQty < inbound.openQty {
      PayableIsSafe(env, inbound, price, done + [e], tail, held + [e.tracker.ptr], heldQty + e.tracker.openQty, sb);
    } else {
      PayableParts(env, inbound, done, rest, price, sb);
      PayableFor(env, inbound, rest, price, sb, 0);
      PayableIsPaid(env, inbound, price, held, done, MaxFrom(e.tracker, inbound.openQty), sb);
      PayableIsSafe(env, inbound, price, done + [e], tail, held, heldQty, sb);
    }
  }

  /** Passing a node keeps what is held, and may hold that node too. */
  lemma HeldNext(done: seq<Entry>, e: Entry, tail: seq<Entry>, held: seq<OrderId>, price: nat)
    requires Clean(done + ([e] + tail)) && Held(held, done, price) && e.key.Matches(price)
    ensures Held(held, done + [e], price) && Held(held + [e.tracker.ptr], done + [e], price)
    ensures Clean(done) && e.tracker.openQty > 0
  {
    var side := done + ([e] + tail);
    assert Distinct(done + [e]) by {
      assert forall k :: 0 <= k < |done| + 1 ==> (done + [e])[k] == side[k];
    }
    assert forall k :: 0 <= k < |done| ==> done[k] == side[k];
    assert side[|done|] == e;
    HeldGrows(held, done, e, price);
  }

  /** An all-or-none inbound order is filled completely, or nothing at all happens. */
  lemma {:induction false} MatchAonRuns(env: OrderMap, inbound: Tracker, price: nat, done: seq<Entry>, rest: seq<Entry>,
                                        held: seq<OrderId>, heldQty: nat, sb: StopBook)
    requires Clean(done + rest) && Held(held, done, price)
    requires AonSafe(env, inbound, price, done, rest, held, heldQty, sb)
    ensures AonOutcome(env, inbound, price, done + rest, sb,
                       MatchAon(env, inbound, inbound.openQty, price, done, rest, held, heldQty, sb))
    decreases |rest|
  {
    hide Held;
    if rest == [] || inbound.openQty == 0 || !rest[0].key.Matches(price) {
      return;
    }
    var e, tail := rest[0], rest[1..];
    var qty, cur := inbound.openQty, e.tracker.openQty;
    assert [e] + tail == rest;
    assert done + [e] + tail == done + rest;
    HeldNext(done, e, tail, held, price);
    if e.tracker.aon && qty < cur {
      MatchAonRuns(env, inbound, price, done + [e], tail, held, heldQty, sb);
    } else if cur + heldQty < qty {
      MatchAonRuns(env, inbound, price, done + [e], tail, held + [e.tracker.ptr], heldQty + cur, sb);
    } else if Completes(env, inbound, e.tracker, Offered(env, inbound, e.tracker, held, done, sb), sb) {
      AonCompletes(env, inbound, price, done, e, tail, held, heldQty, sb);
    } else {
      MatchAonRuns(env, inbound, price, done + [e], tail, held, heldQty, sb);
      AonPassesOn(env, inbound, price, done, e, tail, held, heldQty, sb);
    }
  }

  /** A try that is offered nothing, and does not complete the order, changes nothing. */
  lemma AonPassesOn(env: OrderMap, inbound: Tracker, price: nat, done: seq<Entry>, e: Entry, tail: seq<Entry>,
                    held: seq<OrderId>, heldQty: nat, sb: StopBook)
    requires Clean(done) && Held(held, done, price) && e.key.Matches(price) && e.tracker.openQty > 0
    requires 0 < inbound.openQty <= e.tracker.openQty + heldQty
    requires e.tracker.aon ==> e.tracker.openQty <= inbound.openQty
    requires Offered(env, inbound, e.tracker, held, done, sb) == 0
    requires !Completes(env, inbound, e.tracker, 0, sb)
    ensures MatchAon(env, inbound, inbound.openQty, price, done, [e] + tail, held, heldQty, sb)
         == MatchAon(env, inbound, inbound.openQty, price, done + [e], tail, held, heldQty, sb)
  {
    hide TryDeferred, Offered, Runs, MatchAon, CreateTrade, Clean, Held;
    TryGives(env, inbound, price, done, e.tracker, held, sb);
    if Enough(e.tracker, inbound.openQty, 0) {
      NoPriceNoTrade(env, inbound, e.tracker, sb);
      AonUnpriced(env, inbound, price, done, e, tail, held, heldQty, sb);
    } else {
      AonTooLittle(env, inbound, price, done, e, tail, held, heldQty, sb);
    }
  }

  lemma NoPriceNoTrade(env: OrderMap, inbound: Tracker, e: Tracker, sb: StopBook)
    requires !PaysFor(env, inbound, e, sb)
    ensures CreateTrade(env, inbound, e, inbound.openQty, sb) == Trade(inbound, e, sb, 0, [])
  {
  }

  lemma AonTooLittle(env: OrderMap, inbound: Tracker, price: nat, done: seq<Entry>, e: Entry, tail: seq<Entry>,
                     held: seq<OrderId>, heldQty: nat, sb: StopBook)
    requires e.key.Matches(price) && 0 < inbound.openQty <= e.tracker.openQty + heldQty
    requires e.tracker.aon ==> e.tracker.openQty <= inbound.openQty
    requires TryDeferred(env, inbound, held, MaxFrom(e.tracker, inbound.openQty), MinFrom(e.tracker, inbound.openQty),
                         done, sb) == Deferred(inbound, done, sb, 0, [])
    requires !Enough(e.tracker, inbound.openQty, 0)
    ensures MatchAon(env, inbound, inbound.openQty, price, done, [e] + tail, held, heldQty, sb)
         == MatchAon(env, inbound, inbound.openQty, price, done + [e], tail, held, heldQty, sb)
  {
    hide TryDeferred, CreateTrade, Past;
    assert ([e] + tail)[0] == e && ([e] + tail)[1..] == tail;
    NothingHappened(MatchAon(env, inbound, inbound.openQty, price, done + [e], tail, held, heldQty, sb));
  }

  lemma AonUnpriced(env: OrderMap, inbound: Tracker, price: nat, done: seq<Entry>, e: Entry, tail: seq<Entry>,
                    held: seq<OrderId>, heldQty: nat, sb: StopBook)
    requires e.key.Matches(price) && 0 < inbound.openQty <= e.tracker.openQty + heldQty && e.tracker.openQty > 0
    requires e.tracker.aon ==> e.tracker.openQty <= inbound.openQty
    requires TryDeferred(env, inbound, held, MaxFrom(e.tracker, inbound.openQty), MinFrom(e.tracker, inbound.openQty),
                         done, sb) == Deferred(inbound, done, sb, 0, [])
    requires Enough(e.tracker, inbound.openQty, 0)
    requires CreateTrade(env, inbound, e.tracker, inbound.openQty, sb) == Trade(inbound, e.tracker, sb, 0, [])
    ensures MatchAon(env, inbound, inbound.openQty, price, done, [e] + tail, held, heldQty, sb)
         == MatchAon(env, inbound, inbound.openQty, price, done + [e], tail, held, heldQty, sb)
  {
    hide TryDeferred, CreateTrade, Past;
    assert ([e] + tail)[0] == e && ([e] + tail)[1..] == tail;
    PastUntouched(done, e);
    NothingHappened(MatchAon(env, inbound, inbound.openQty, price, done + [e], tail, held, heldQty, sb));
  }

  lemma PastUntouched(done: seq<Entry>, e: Entry)
    requires e.tracker.openQty > 0
    ensures Past(done, e, e.tracker) == done + [e]
  {
  }

  lemma NothingHappened(m: Match)
    ensures m.After([], false) == m && m.After([] + [], false) == m
  {
  }

  // ---- Without any price ----

  /** A sale of 10 without a limit faces bids for 5 without a limit, and for 3 and 5 at 100. */
  const UNPRICED_ORDERS: OrderMap := map[
    1 := Order(true, 0, 5, 0, 0, 0, Accepted), 2 := Order(true, 100, 3, 0, 0, 0, Accepted),
    3 := Order(true, 100, 5, 0, 0, 0, Accepted), 4 := Order(false, 0, 10, 0, 0, 0, Accepted)]
  const MARKET_BID := Entry(ComparablePrice(true, 0), Tracker(1, 5, false, false))
  const FIRST_BID := Entry(ComparablePrice(true, 100), Tracker(2, 3, false, false))
  const SECOND_BID := Entry(ComparablePrice(true, 100), Tracker(3, 5, false, false))
  const NO_STOPS := StopBook(0, [], [], [])

  /** The first pass counts on both deferred bids; in the second one the trade without a price
      does nothing. */
  lemma UnpricedSecondPass()
    ensures var d := TryDeferred(UNPRICED_ORDERS, Tracker(4, 10, true, false), [1, 2], 10, 5, [MARKET_BID, FIRST_BID],
                                 NO_STOPS);
            d.traded == 3 && d.inbound == Tracker(4, 7, true, false)
  {
    hide ExecPlan, PlanQty;
    UnpricedPlan();
    UnpricedLastTrade();
    UnpricedFirstTrade();
  }

  const DEFERRED_BIDS := [MARKET_BID, FIRST_BID]

  lemma DeferredAt()
    ensures IndexOf(DEFERRED_BIDS, 1) == 0 && IndexOf(DEFERRED_BIDS, 2) == 1 && [1, 2][1..] == [2] && [2][1..] == []
  {
    assert DEFERRED_BIDS[1..] == [FIRST_BID] && IndexOf([FIRST_BID], 2) == 0;
  }

  lemma UnpricedPlan()
    ensures PlanQty([1, 2], DEFERRED_BIDS, 10) == 8
  {
    hide IndexOf;
    DeferredAt();
    assert PlanQty([2], DEFERRED_BIDS, 5) == 3 + PlanQty([], DEFERRED_BIDS, 2);
  }

  /** The trade with the limit order finds its price. */
  lemma UnpricedLastTrade()
    ensures var d := ExecPlan(UNPRICED_ORDERS, Tracker(4, 10, true, false), [2], DEFERRED_BIDS, 5, NO_STOPS);
            d.traded == 3 && d.inbound == Tracker(4, 7, true, false)
  {
    hide IndexOf;
    DeferredAt();
    var t := CreateTrade(UNPRICED_ORDERS, Tracker(4, 10, true, false), FIRST_BID.tracker, 3, NO_STOPS);
    assert t.qty == 3 && t.inbound == Tracker(4, 7, true, false);
  }

  /** The trade with the market order finds none. */
  lemma UnpricedFirstTrade()
    ensures var t := Tracker(4, 10, true, false);
            var d, e := ExecPlan(UNPRICED_ORDERS, t, [1, 2], DEFERRED_BIDS, 10, NO_STOPS),
                ExecPlan(UNPRICED_ORDERS, t, [2], DEFERRED_BIDS, 5, NO_STOPS);
            d.traded == e.traded && d.inbound == e.inbound
  {
    hide IndexOf;
    DeferredAt();
    var t := CreateTrade(UNPRICED_ORDERS, Tracker(4, 10, true, false), MARKET_BID.tracker, 5, NO_STOPS);
    assert t == Trade(Tracker(4, 10, true, false), MARKET_BID.tracker, NO_STOPS, 0, []);
    assert Settle(DEFERRED_BIDS, 0, t.current) == DEFERRED_BIDS;
  }

  /** Without any price an all-or-none order can be filled in part; such a match is not a safe one. */
  lemma UnpricedAonPartlyFilled()
    ensures MatchOrder(UNPRICED_ORDERS, Tracker(4, 10, true, false), 0, [MARKET_BID, FIRST_BID, SECOND_BID],
                       NO_STOPS).inbound.openQty == 7
    ensures !AonSafe(UNPRICED_ORDERS, Tracker(4, 10, true, false), 0, [], [MARKET_BID, FIRST_BID, SECOND_BID], [], 0,
                     NO_STOPS)
  {
    UnpricedMatch();
    UnpricedIsUnsafe();
  }

  lemma UnpricedIsUnsafe()
    requires MatchOrder(UNPRICED_ORDERS, Tracker(4, 10, true, false), 0, [MARKET_BID, FIRST_BID, SECOND_BID],
                        NO_STOPS).inbound.openQty == 7
    ensures !AonSafe(UNPRICED_ORDERS, Tracker(4, 10, true, false), 0, [], [MARKET_BID, FIRST_BID, SECOND_BID], [], 0,
                     NO_STOPS)
  {
    hide AonSafe, MatchAon, Runs;
    var side := [MARKET_BID, FIRST_BID, SECOND_BID];
    assert [] + side == side;
    if AonSafe(UNPRICED_ORDERS, Tracker(4, 10, true, false), 0, [], side, [], 0, NO_STOPS) {
      MatchAonRuns(UNPRICED_ORDERS, Tracker(4, 10, true, false), 0, [], side, [], 0, NO_STOPS);
    }
  }

  lemma UnpricedMatch()
    ensures MatchOrder(UNPRICED_ORDERS, Tracker(4, 10, true, false), 0, [MARKET_BID, FIRST_BID, SECOND_BID],
                       NO_STOPS).inbound.openQty == 7
  {
    hide TryDeferred;
    var env, t := UNPRICED_ORDERS, Tracker(4, 10, true, false);
    var e1, e2, e3 := MARKET_BID, FIRST_BID, SECOND_BID;
    UnpricedSecondPass();
    assert [e1, e2, e3][1..] == [e2, e3] && [e2, e3][1..] == [e3] && [e3][1..] == [];
    assert [] + [e1] == [e1] && [e1] + [e2] == [e1, e2] && [] + [1] == [1] && [1] + [2] == [1, 2];
    assert MatchAon(env, t, 10, 0, [e1, e2], [e3], [1, 2], 8, NO_STOPS).inbound == Tracker(4, 7, true, false);
    assert MatchAon(env, t, 10, 0, [e1], [e2, e3], [1], 5, NO_STOPS).inbound == Tracker(4, 7, true, false);
  }
}
